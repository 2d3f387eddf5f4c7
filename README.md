# YRL sales model in Dafny

A model of the YRL sales system (Java package `com.yrl`), with proofs. The system loads persons, stores, catalog items, sales and sale items from CSV files. It keeps sales in a hand-written sorted linked list and prints summary reports.

The model covers five parts:

- **Linked list.** `LinkedList` and `Node` are classes. A ghost spine of nodes specifies them, and the list's contents are a sequence:
  - sorted `add`, `add(index, x)`, `get` and `remove`;
  - `replace`, `size`, `clear` and `isEmpty`;
  - `boundsCheck` and `getNode`.
- **Entities.**
  - `Item` is one datatype with a variant per Java subclass. Its pricing uses the source's rounding, `Math.round(x * 100) / 100.0`, and the lease term of `Period.between`.
  - `Sale` is a value.
  - `Person` is a class because `loadPersonData` adds emails to it; `Store` is a class because `Store.addSale` changes its list of sales in place.
  - `Address` is a value.
- **Java library behaviour the core relies on.** `String.compareTo`, `split(",")` (which drops trailing empty fields), `String.hashCode`, and 32-bit `int` wrap-around in the hashes.
- **CSV loaders.** Each is an imperative loop proved against a fold of a per-line step over the data lines. A step either continues, stops the loop (an index error the loader catches), or fails with the exception that escapes.
- **Reports.**
  - The four comparators, each proved antisymmetric and transitive.
  - The sorted copies made by `printSalesCustomer`, `printSalesValue` and `printSalesStore`.
  - The totals of `printSales` and `printStore`.

One module per concern: `Wrappers`, `JavaString`, `Money`, `Dates`, `Addresses`, `Persons`, `Items`, `Nodes`, `LinkedLists`, `Sales`, `CsvDataLoader`, `ReportUtils`.

Inputs and outputs are modelled as follows:

- A file is modelled as its sequence of lines, with `None` standing for a null path.
- The library parsers `Double.parseDouble`, `Integer.parseInt` and `LocalDate.parse` are parameters. A parser returns `None` where the library throws.
- A map's `values()` is a sequence in iteration order.
- Reports return the values they would print: the sales in printing order, or the totals. A `NullPointerException` is a `thrown` flag. When a row throws, the sorted reports return the rows printed before it. When a comparator throws while the sorted copy is made, nothing is printed.

## Model

| member | source | states |
|---|---|---|
| JavaString.CompareToZeroIff | src/com/yrl/Item.java:40-43 | `compareTo` is zero exactly when the strings are equal |
| JavaString.CompareToAntisymmetric | src/com/yrl/Item.java:40-43 | swapping the strings negates `compareTo` |
| JavaString.CompareToNegativeIffLexBefore | src/com/yrl/Item.java:40-43 | `compareTo` is negative exactly when the first string comes first lexicographically (independent definition) |
| JavaString.CompareToTransitive | src/com/yrl/ReportUtils.java:160-170 | "compares not above" is transitive |
| JavaString.JoinPieces | src/com/yrl/CsvDataLoader.java:42 | joining the comma-separated pieces of a line with commas gives the line back |
| JavaString.SplitIsPiecesPrefix | src/com/yrl/CsvDataLoader.java:42 | `split(",")` returns the pieces with only empty trailing pieces dropped |
| Money.Round2 | src/com/yrl/Lease.java:47-50 | rounding to cents gives whole cents within half a cent of the amount |
| Money.Round2NonNegative | src/com/yrl/Voice.java:49-52 | rounding a non-negative amount gives a non-negative amount |
| Money.Round2OfCents | src/com/yrl/Voice.java:58-60 | rounding whole cents changes nothing, so taxing a rounded subtotal does not re-round it |
| Money.Round2Monotone | src/com/yrl/Data.java:41-44 | rounding keeps the order of amounts |
| Dates.MonthsBetweenIsTotal | src/com/yrl/Lease.java:33-36 | `getYears() * 12 + getMonths()` is the period's month total; the months part lies strictly between -12 and 12 and is non-negative for a forward period |
| Dates.MonthsBetweenIsWholeMonths | src/com/yrl/Lease.java:33-36 | the lease term is the number of whole months: the end date has reached that monthly anniversary of the start and not the next one |
| Dates.SixMonthTerm | src/com/yrl/Lease.java:33-36 | 2024-01-01 to 2024-07-01 is a six-month term |
| Dates.MonthEndIsNotAWholeMonth | src/com/yrl/Lease.java:33-36 | January 31 to February 28 is no whole month, although `plusMonths(1)` reaches February 28 |
| Dates.PartialMonthNotCounted | src/com/yrl/Lease.java:33-36 | a trailing partial month is not counted |
| Addresses.StreetRoundTrip | src/com/yrl/Address.java:37-42 | the text starts with a tab, and the street is recovered as its first line |
| Persons.Person.constructor | src/com/yrl/Person.java:17-24 | a new person has the given UUID, names and address, and no emails |
| Persons.Person.AddEmail | src/com/yrl/Person.java:69-71 | the email is appended and nothing else changes |
| Persons.Person.ToString | src/com/yrl/Person.java:42-58 | the loop-built text is the header, the email block, then the address text; it throws (`None`) exactly when the person has no address |
| Persons.EmailsToString | src/com/yrl/Person.java:45-54 | the loop of all but the last email, then the last, builds the bracketed ", "-separated list (or a bare line break when there are none) |
| Persons.ListedThenLastIsJoin | src/com/yrl/Person.java:47-52 | each email but the last followed by ", ", then the last, is the ", "-join of all |
| Persons.EmailBlockCases | src/com/yrl/Person.java:45-54 | the three cases of the email block: none, one, several |
| Persons.TextFraming | src/com/yrl/Person.java:42-58 | the text begins with the name and UUID header and ends with the address text |
| Persons.NameToStringStartsWithLastName | src/com/yrl/Person.java:38-40 | the last name is what precedes the first comma of `nameToString` |
| Items.CatalogProduct | src/com/yrl/Product.java:10-13 | a catalog product keeps code, name and price and prices at zero |
| Items.CatalogVoice | src/com/yrl/Voice.java:20-23 | a catalog voice plan has no phone number and zero days, so every total is zero |
| Items.CatalogData | src/com/yrl/Data.java:18-21 | a catalog data plan has zero GBs and totals of zero |
| Items.CatalogService | src/com/yrl/Service.java:21-24 | a catalog service has zero hours and no servicer, and totals of zero |
| Items.GrandTotalIsSubTotalPlusTaxes | src/com/yrl/Purchase.java:39-41 | every variant's grand total is its subtotal plus its taxes |
| Items.TaxesAreRoundedCents | src/com/yrl/Service.java:57-59 | taxes are whole cents within half a cent of rate times taxed amount (the base price for a purchase) |
| Items.SubTotalIsCents | src/com/yrl/Data.java:41-44 | every subtotal except a purchase's is whole cents |
| Items.PricingNonNegative | src/com/yrl/Service.java:49-66 | non-negative prices, quantities and lease terms give non-negative totals, with grand total at least subtotal |
| Items.CompareToIsByCode | src/com/yrl/Item.java:40-43 | items compare equal exactly when their codes are equal, and below exactly when the code comes first |
| Items.CompareToAntisymmetric | src/com/yrl/Item.java:40-43 | swapping the items negates the comparison |
| Items.PurchaseExample | src/com/yrl/Purchase.java:23-41 | a 100.00 purchase has 6.50 tax and 106.50 in all |
| Items.LeaseExample | src/com/yrl/Lease.java:46-66 | 1200.00 leased for six months is 300.00 a month, untaxed |
| Items.ZeroTermRound | src/com/yrl/Lease.java:47-50 | rounding the quotient of a division by a zero term gives whole cents with the sign of the dividend |
| Items.ZeroTermLeaseExample | src/com/yrl/Lease.java:47-50 | a zero-month lease costs `Long.MAX_VALUE / 100` for a positive price, 0 for a zero price, and `Long.MIN_VALUE / 100` for a negative one |
| Items.DataExample | src/com/yrl/Data.java:41-60 | 2.5 GB at 10.00 is 25.00 with 1.38 tax |
| Items.VoiceExample | src/com/yrl/Voice.java:49-68 | 15 days of a 30.00 plan is 15.00 with 0.98 tax |
| Nodes.Node.constructor | src/com/yrl/Node.java:11-14 | a new node holds the element and links nowhere |
| Nodes.Node.SetNext | src/com/yrl/Node.java:24-26 | only the link changes |
| Nodes.Node.SetElement | src/com/yrl/Node.java:28-30 | only the element changes |
| Nodes.Node.ReplaceElement | src/com/yrl/Node.java:32-36 | returns the previous element and stores the new one |
| LinkedLists.InsertionIndex | src/com/yrl/LinkedList.java:33-63 | the sorted `add` links a new element in front of the first element it does not compare above |
| LinkedLists.InsertionIndexUnique | src/com/yrl/LinkedList.java:33-63 | that position is the only one with both properties |
| LinkedLists.AddedPermutation | src/com/yrl/LinkedList.java:33-63 | `add` grows the list by one, adds exactly the element, and loses none |
| LinkedLists.AddedSorted | src/com/yrl/LinkedList.java:33-63 | with an antisymmetric comparator, `add` keeps a sorted list sorted |
| LinkedLists.AddedInFrontOfTies | src/com/yrl/LinkedList.java:33-63 | the new element goes in front of the elements it ties with |
| LinkedLists.AddedAllSorted | src/com/yrl/LinkedList.java:33-63 | adding elements one by one with a comparator gives a sorted permutation of them |
| LinkedLists.AddedAllAppends | src/com/yrl/LinkedList.java:33-63 | without a comparator, adding elements one by one appends them in order |
| LinkedLists.SortedIsPairwise | src/com/yrl/LinkedList.java:33-63 | with a transitive comparator, a neighbour-sorted list is sorted pairwise |
| LinkedLists.TiesReversed | src/com/yrl/LinkedList.java:33-63 | two tying elements come out in the reverse of their insertion order |
| LinkedLists.InsertAtZeroIsSecond | src/com/yrl/LinkedList.java:70-84 | on a non-empty list `add(0, x)` puts `x` second, not first |
| LinkedLists.InsertedAtThenRemoved | src/com/yrl/LinkedList.java:70-115 | removing at the position where `add(index, x)` put `x` gives the list back |
| LinkedLists.LinkedList.constructor | src/com/yrl/LinkedList.java:16-20 | a new list without a comparator is empty and valid |
| LinkedLists.LinkedList.WithComparator | src/com/yrl/LinkedList.java:22-26 | a new list with the comparator is empty and valid |
| LinkedLists.LinkedList.Add | src/com/yrl/LinkedList.java:33-63 | the node chain now holds the contents with `x` appended (no comparator) or inserted at its position |
| LinkedLists.LinkedList.AddAt | src/com/yrl/LinkedList.java:70-84 | fails exactly for an index below 0 or above the size, changing nothing; otherwise inserts after `getNode(index - 1)` |
| LinkedLists.LinkedList.Get | src/com/yrl/LinkedList.java:91-94 | the element at the index, or the illegal-argument error exactly when it is out of range |
| LinkedLists.LinkedList.Remove | src/com/yrl/LinkedList.java:102-115 | returns and unlinks the element at the index, or fails changing nothing |
| LinkedLists.LinkedList.UnlinkHead | src/com/yrl/LinkedList.java:103-108 | the head moves to the second node and the list loses its first element, still well formed |
| LinkedLists.LinkedList.UnlinkAfter | src/com/yrl/LinkedList.java:110-114 | the node after `getNode(index - 1)` is linked past, so its element leaves the list and the rest keep their order |
| LinkedLists.LinkedList.Replace | src/com/yrl/LinkedList.java:122-125 | returns the old element and stores the new one at the index, or fails changing nothing |
| LinkedLists.LinkedList.BoundsCheck | src/com/yrl/LinkedList.java:132-136 | passes exactly for indices 0 to size - 1 |
| LinkedLists.LinkedList.Size | src/com/yrl/LinkedList.java:144-146 | the number of elements |
| LinkedLists.LinkedList.Clear | src/com/yrl/LinkedList.java:151-153 | the list is empty while the head still points at the old nodes |
| LinkedLists.LinkedList.IsEmpty | src/com/yrl/LinkedList.java:160-162 | true exactly when there are no elements |
| LinkedLists.LinkedList.GetNode | src/com/yrl/LinkedList.java:186-192 | every index up to 0 gives the head, index `i` the `i`-th node, and the size gives null |
| Sales.Store.constructor | src/com/yrl/Store.java:17-22 | a new store has the given code, manager and address and no sales |
| Sales.Store.AddSale | src/com/yrl/Store.java:53-55 | the sale is appended |
| Sales.Store.HashCode | src/com/yrl/Store.java:37-39 | the hash is a 32-bit `int` |
| Sales.StoreEqualsIsByCode | src/com/yrl/Store.java:42-51 | store equality is equality of codes, is reflexive and symmetric, and equal stores hash alike |
| Sales.Sale.SaleSubTotal | src/com/yrl/Sale.java:42-48 | the loop adds up the items' subtotals, and throws (`None`) exactly when an item is null |
| Sales.Sale.SaleTotalTax | src/com/yrl/Sale.java:54-60 | the loop adds up the items' taxes, and throws (`None`) exactly when an item is null |
| Sales.Sale.SaleGrandTotal | src/com/yrl/Sale.java:65-67 | subtotal plus tax, and throws (`None`) exactly when an item is null |
| Sales.Sale.AddSale | src/com/yrl/Sale.java:100-102 | the item, possibly null, goes at the end and nothing else changes |
| Sales.SaleEqualsIsEquivalence | src/com/yrl/Sale.java:109-120 | sale equality is an equivalence that ignores the store and the people |
| Sales.SaleHashConsistent | src/com/yrl/Sale.java:104-107 | equal sales hash alike, whatever the date and item hashes |
| Sales.AddSaleTotals | src/com/yrl/Sale.java:100-102 | adding an item adds its subtotal, its tax and one to the count |
| Sales.AddNullItemUnpriced | src/com/yrl/Sale.java:100-102 | after a null item the sale can no longer be totalled |
| Sales.TotalsAppend | src/com/yrl/Sale.java:42-60 | the totals are additive over the item list |
| Sales.GrandTotalIsSumOfItems | src/com/yrl/Sale.java:42-67 | a sale's grand total is the sum of its items' grand totals |
| Sales.TaxIsCents | src/com/yrl/Sale.java:54-60 | a sale's tax is whole cents |
| Sales.TotalsNonNegative | src/com/yrl/Sale.java:42-60 | no sale total is negative for non-negative inputs |
| CsvDataLoader.LoadPersonData | src/com/yrl/CsvDataLoader.java:29-68 | the loop builds the person map the fold specifies: same keys, each person built from its (last) line, and the index exception of a short line |
| CsvDataLoader.PersonOfLine | src/com/yrl/CsvDataLoader.java:43-58 | a person from the first seven fields, with every later field as an email in order |
| CsvDataLoader.LoadItemData | src/com/yrl/CsvDataLoader.java:77-116 | the loop computes the fold of the item step: a catalog item per known type code, unknown types skipped, short lines and bad prices escaping |
| CsvDataLoader.LoadSaleData | src/com/yrl/CsvDataLoader.java:125-167 | the loop computes the fold of the sale step: five-field lines only, date errors and unknown people escaping, duplicates skipped |
| CsvDataLoader.LoadSalesItem | src/com/yrl/CsvDataLoader.java:176-260 | the loop computes the fold of the sale-item step over both the returned map and the sale map |
| CsvDataLoader.SaleItemLine | src/com/yrl/CsvDataLoader.java:189-248 | one line is exactly one sale-item step: a line with no fields stops the loop, the item made (or null) is filed under the sale code and added to the sale with that code |
| CsvDataLoader.FindItem | src/com/yrl/CsvDataLoader.java:205-206 | the search returns the first of the item map's values with the code, if any |
| CsvDataLoader.LoadStoreData | src/com/yrl/CsvDataLoader.java:269-312 | the loop builds the store map the fold specifies; nothing escapes |
| CsvDataLoader.StoreOfLine | src/com/yrl/CsvDataLoader.java:290-300 | the manager is the known person, or a placeholder with only the UUID |
| CsvDataLoader.PersonsKeyedByUuid | src/com/yrl/CsvDataLoader.java:29-68 | every loaded person is filed under its own UUID |
| CsvDataLoader.StoresKeyedByCode | src/com/yrl/CsvDataLoader.java:269-312 | every loaded store is filed under its own code |
| CsvDataLoader.ItemsKeyedCatalog | src/com/yrl/CsvDataLoader.java:77-116 | every loaded item is filed under its own code and is a catalog item |
| CsvDataLoader.SalesWellFormed | src/com/yrl/CsvDataLoader.java:125-167 | every loaded sale is filed under its code, has no items, and refers to loaded people and a loaded store or null |
| CsvDataLoader.UnknownPersonAborts | src/com/yrl/CsvDataLoader.java:146-155 | a sale line with an unknown customer or salesperson aborts the whole load with "Not found", whatever follows |
| CsvDataLoader.UnknownServicerAborts | src/com/yrl/CsvDataLoader.java:217-226 | a sale-item line for a service whose servicer is unknown aborts the whole load with "Not found", whatever follows |
| CsvDataLoader.DuplicateSaleIgnored | src/com/yrl/CsvDataLoader.java:147-151 | a sale equal to one already loaded leaves the map unchanged |
| CsvDataLoader.SaleItemsLoadKeeps | src/com/yrl/CsvDataLoader.java:176-260 | the sale map keeps its sales, each only gaining items at the end; each sales item has the code of a catalog item |
| CsvDataLoader.UnknownItemAppendsNull | src/com/yrl/CsvDataLoader.java:203-249 | an unknown item code appends a null item to the sale and files nothing |
| ReportUtils.ComparatorsAntisymmetric | src/com/yrl/ReportUtils.java:160-258 | each of the four comparators changes sign when its arguments are swapped |
| ReportUtils.ComparatorsTransitive | src/com/yrl/ReportUtils.java:160-258 | each comparator's "not above" is transitive |
| ReportUtils.CompareNamesTransitive | src/com/yrl/ReportUtils.java:160-170 | ordering by last and then first name is transitive |
| ReportUtils.ThenTransitive | src/com/yrl/ReportUtils.java:248-258 | breaking store-code ties with a transitive comparison stays transitive |
| ReportUtils.SortedPrint | src/com/yrl/ReportUtils.java:172-183 | no rows and a throw when the comparator throws while copying; otherwise the list's sales added one by one to a comparator list, printed in its order up to the first row that throws, and a throw exactly when some row does |
| ReportUtils.CopySorted | src/com/yrl/ReportUtils.java:172-176 | a throw exactly when there are two or more sales and one of them makes the comparator throw; otherwise the new list holds the sales added in list order |
| ReportUtils.CopyOne | src/com/yrl/ReportUtils.java:173-175 | `get(i)` and `add` of one sale: a throw only if a sale makes the comparator throw; otherwise the new list also holds that sale, the list being copied is left as it was, and no earlier sale made the comparator throw |
| ReportUtils.AddNext | src/com/yrl/ReportUtils.java:175 | `add` of the next sale extends the copy by that sale and leaves the list being copied as it was |
| ReportUtils.FirstUnprintable | src/com/yrl/ReportUtils.java:179-182 | the first sale whose row throws: every sale before it has a store and no null item, and it has not |
| ReportUtils.PrintRows | src/com/yrl/ReportUtils.java:177-183 | reading `get(i)` for each index yields the contents up to the first sale without a store or with a null item, and throws exactly when there is one |
| ReportUtils.SortedReport | src/com/yrl/ReportUtils.java:172-183 | a sorted report lists each sale exactly once, every pair in comparator order |
| ReportUtils.SortedReportPrinted | src/com/yrl/ReportUtils.java:172-183 | what a sorted report prints is in comparator order and taken from the list; it throws exactly when some sale of the list cannot be printed, and otherwise prints every sale once |
| ReportUtils.PrintSalesCustomer | src/com/yrl/ReportUtils.java:153-184 | no rows when there are two or more sales and one has no customer last name; otherwise the sales by customer name in comparator order up to the first row that throws; a throw exactly when the comparator throws or some sale has no store or a null item, and otherwise a pairwise-sorted permutation of the list |
| ReportUtils.PrintSalesValue | src/com/yrl/ReportUtils.java:191-223 | no rows when there are two or more sales and one has a null item; otherwise the sales by grand total in comparator order up to the first row that throws; a throw exactly when some sale has no store or a null item, and otherwise a pairwise-sorted permutation of the list |
| ReportUtils.PrintSalesStore | src/com/yrl/ReportUtils.java:230-272 | no rows when there are two or more sales and one has no store; otherwise the sales by store code and salesperson name in comparator order up to the first row that throws; a throw exactly when some sale has no store or a null item, and otherwise a pairwise-sorted permutation of the list |
| ReportUtils.NothingPrinted | src/com/yrl/ReportUtils.java:172-176 | printing no rows is in comparator order and taken from any list |
| ReportUtils.CopyThrowsUnreportable | src/com/yrl/ReportUtils.java:198-258 | a sale that makes `cmpByValue` or `cmpByStore` throw has a row that throws too |
| ReportUtils.ValueReportDescending | src/com/yrl/ReportUtils.java:198-209 | no sale in the value report follows one with a smaller grand total |
| ReportUtils.StoreReportGrouped | src/com/yrl/ReportUtils.java:248-258 | the store report keeps each store's sales together |
| ReportUtils.PrintSales | src/com/yrl/ReportUtils.java:31-56 | nothing for a null map; a throw exactly when some sale has no store or a null item; otherwise the item count, tax and grand total summed over the sales |
| ReportUtils.SummaryOrderFree | src/com/yrl/ReportUtils.java:45-51 | the footer does not depend on the map's iteration order |
| ReportUtils.SummaryTaxIsCents | src/com/yrl/ReportUtils.java:45-51 | the overall tax is whole cents |
| ReportUtils.PrintStore | src/com/yrl/ReportUtils.java:62-94 | nothing for a null map; a throw exactly when some store's inner loop throws; otherwise per store its count and grand total of sales, and the count and total over all stores |
| ReportUtils.StoreTotals | src/com/yrl/ReportUtils.java:79-86 | the inner loop counts and totals the sales of one store, and throws exactly when it meets a sale without a store or one of the store's sales with a null item |
| ReportUtils.StoreReportThrows | src/com/yrl/ReportUtils.java:79-86 | with every sale reportable no store's loop throws, and a sale without a store makes every store's loop throw |
| ReportUtils.EachSaleCountedOnce | src/com/yrl/ReportUtils.java:62-94 | with distinct store codes covering every sale's store, the report counts every sale once and its total is the total of all sales |

## Left out

- Files, `Scanner`, console output, logging and `printf` layouts are not modelled; reports return the values they print. `FileNotFoundException` cannot arise, because a file is given as its lines.
- The console messages "No data in file" and "Sale not found" are not modelled; the empty map and the untouched sale map that go with them are.
- `LinkedList.iterator` is not modelled. Its index never advances: `hasNext()` stays true and `next()` returns `get(1)` every time.
- `LinkedList.print` is left out because it only prints.
- `printIndivSale` and `printAllReports` are left out; they only print the values the other members model.
- `SalesData`, `DatabaseLoader`, `ConnectionFactory`, `ConvertData`, `DataConverter` and `SalesReport` are not part of this model: database access and the program entry point.
- Doubles are reals: bit-exact IEEE rounding is not modelled. `Math.round` is modelled as the floor of the amount plus one half.
- Items.ZeroTermRound: `Long.MAX_VALUE / 100.0` and `Long.MIN_VALUE / 100.0` are taken as exact reals, not as the nearest doubles (9.223372036854776E16 and its negative).
- Money.Round2: `Math.round` saturates at the bounds of `long`; the model rounds without bound, so amounts beyond about 9.2E16 are not modelled as the source computes them (except the division by a zero lease term, see `ZeroTermRound`).
- `Sale(String, List<Item>)` (the two-argument constructor) and `getDate` are not modelled. Neither is used by the core.
- The int `size` of the list and the int counters of the reports are unbounded integers; overflow past 2^31 is not modelled. The hashes do model 32-bit wrap-around.
- JavaString.CompareTo and JavaString.StringHash: strings are sequences of Dafny `char`, which are Unicode scalar values, not Java's UTF-16 code units. A character outside the Basic Multilingual Plane is one `char` here and a surrogate pair in Java, so `compareTo`, `hashCode` (and with them the report order and `Store.hashCode`) differ from Java's on such characters. On strings within the Basic Multilingual Plane they agree.
- Persons.Person.ToString: `String.format` is applied to the concatenated header, so a `%` in a name or UUID would be read as a format directive. The model treats the header as literal text.
- LinkedLists.LinkedList.GetNode: requires a non-empty list and an index up to the size, which every internal caller meets. In the source, `getNode(i)` with `i <= 0` returns `head` whatever the list holds (null for an empty list, the stale first node after `clear`); a larger index walks on along the chain a cleared list still links to, and dereferences null past its end.
- ReportUtils.CmpByCustomer, ReportUtils.CmpBySalesperson, ReportUtils.CmpByStore and ReportUtils.CmpByValue: the source throws `NullPointerException` for a missing name, a missing store or a null item. The comparators compare "" and a value of 0 instead, which keeps them total. The throw itself is modelled by the sorted reports, which check the sales before comparing them (see `CopyThrows`).
- ReportUtils.PrintSalesCustomer, ReportUtils.PrintSalesValue and ReportUtils.PrintSalesStore: the copy counts as throwing when a sale has no customer last name, has a null item or has no store. Two further throws are not modelled. `cmpByCustomer` also throws on a missing customer first name when the last names tie. `cmpByStore` also throws on a missing salesperson name when the store codes tie.
- ReportUtils.PrintSales: when a row throws, the rows printed before it are not returned, only that it threw.
- ReportUtils.PrintStore: when a store's loop throws, the store lines printed before it are not returned, only that it threw. A null sale map (a `NullPointerException` once there is a store) is not modelled.
- ReportUtils.StoreTotals returns the store's count, and `printStore` adds it to its running total after the inner loop; the source increments that total inside the loop. The two give the same counts.
- CsvDataLoader.LoadSalesItem: `itemValues` is the item map's values in iteration order, and which item is found first depends on that order. When an exception escapes, the sale-map changes made before it are not returned.
- Item identity is not modelled: a sale's items are values, so two equal items are indistinguishable. Java's `equals` on items is identity.
- `Lease` dates and `LocalDate.parse` are modelled on a proleptic calendar. The date parser is a parameter.
