/** The reports. Apart from their layout, the summary reports are sums over the sales:
    the item count, the tax and the grand total over all sales, and per store the
    number of sales and their grand total. The three sorted reports copy the sale
    list into a linked list that keeps a comparator's order and list the sales in
    that order. The comparators order by the customer's name, by the grand total
    (largest first), and by store code and then the salesperson's name. */
module ReportUtils {
  import opened Wrappers
  import opened Money
  import opened LinkedLists
  import opened Sales
  import Persons
  import JavaString

  // ---------------------------------------------------------------------------
  // The comparators

  /** A name as the comparators read it; only the placeholder manager has no name,
      and comparing one throws, so the model compares it as "". */
  function NameKey(name: Option<string>): string {
    match name
    case None => ""
    case Some(n) => n
  }

  /** The store code a comparator reads; a sale without a store throws there. */
  function StoreKey(s: Sale): string {
    if s.store == null then "" else s.store.storeCode
  }

  /** A sale's grand total where the comparator reads it; a sale with a null item
      throws there. */
  function SaleValue(s: Sale): real {
    if Priced(s.items) then GrandTotalOf(s) else 0.0
  }

  /** A comparison on a first key, broken by `next` when the first keys are equal. */
  function Then(first: int, next: int): int {
    if first == 0 then next else first
  }

  /** Last names first, then first names. */
  function CompareNames(a: Persons.Person, b: Persons.Person): int {
    Then(JavaString.CompareTo(NameKey(a.lastName), NameKey(b.lastName)),
         JavaString.CompareTo(NameKey(a.firstName), NameKey(b.firstName)))
  }

  /** `cmpByCustomer`. */
  function CmpByCustomer(a: Sale, b: Sale): int {
    CompareNames(a.customer, b.customer)
  }

  /** `cmpByValue`: the larger grand total comes first. */
  function CmpByValue(a: Sale, b: Sale): int {
    if SaleValue(a) < SaleValue(b) then 1
    else if SaleValue(a) > SaleValue(b) then -1
    else 0
  }

  /** `cmpBySalesPerson`. */
  function CmpBySalesperson(a: Sale, b: Sale): int {
    CompareNames(a.salesperson, b.salesperson)
  }

  /** `cmpByStore`: store codes first, then `cmpBySalesPerson`. */
  function CmpByStore(a: Sale, b: Sale): int {
    Then(JavaString.CompareTo(StoreKey(a), StoreKey(b)), CmpBySalesperson(a, b))
  }

  // ---------------------------------------------------------------------------
  // The comparators are consistent orders

  /** Breaking string-comparison ties with an antisymmetric comparison is antisymmetric. */
  lemma ThenAntisymmetric(x: string, y: string, nextXY: int, nextYX: int)
    requires nextXY == -nextYX
    ensures Then(JavaString.CompareTo(x, y), nextXY) == -Then(JavaString.CompareTo(y, x), nextYX)
  {
    JavaString.CompareToAntisymmetric(x, y);
  }

  /** Breaking string-comparison ties with a transitive comparison is transitive. */
  lemma ThenTransitive(x: string, y: string, z: string, nextXY: int, nextYZ: int, nextXZ: int)
    requires Then(JavaString.CompareTo(x, y), nextXY) <= 0
    requires Then(JavaString.CompareTo(y, z), nextYZ) <= 0
    requires x == y == z && nextXY <= 0 && nextYZ <= 0 ==> nextXZ <= 0
    ensures Then(JavaString.CompareTo(x, z), nextXZ) <= 0
  {
    JavaString.CompareToZeroIff(x, y);
    JavaString.CompareToZeroIff(y, z);
    JavaString.CompareToZeroIff(x, z);
    if x != y && y != z {
      JavaString.CompareToTransitive(x, y, z);
      if x == z {
        JavaString.CompareToAntisymmetric(x, y);
      }
    }
  }

  lemma CompareNamesAntisymmetric(a: Persons.Person, b: Persons.Person)
    ensures CompareNames(a, b) == -CompareNames(b, a)
  {
    JavaString.CompareToAntisymmetric(NameKey(a.firstName), NameKey(b.firstName));
    ThenAntisymmetric(NameKey(a.lastName), NameKey(b.lastName),
                      JavaString.CompareTo(NameKey(a.firstName), NameKey(b.firstName)),
                      JavaString.CompareTo(NameKey(b.firstName), NameKey(a.firstName)));
  }

  lemma CompareNamesTransitive(a: Persons.Person, b: Persons.Person, c: Persons.Person)
    requires CompareNames(a, b) <= 0 && CompareNames(b, c) <= 0
    ensures CompareNames(a, c) <= 0
  {
    var fa, fb, fc := NameKey(a.firstName), NameKey(b.firstName), NameKey(c.firstName);
    if JavaString.CompareTo(fa, fb) <= 0 && JavaString.CompareTo(fb, fc) <= 0 {
      JavaString.CompareToTransitive(fa, fb, fc);
    }
    ThenTransitive(NameKey(a.lastName), NameKey(b.lastName), NameKey(c.lastName),
                   JavaString.CompareTo(fa, fb), JavaString.CompareTo(fb, fc), JavaString.CompareTo(fa, fc));
  }

  /** Each comparator is antisymmetric: swapping the sales negates the result. */
  lemma ComparatorsAntisymmetric(a: Sale, b: Sale)
    ensures CmpByCustomer(a, b) == -CmpByCustomer(b, a)
    ensures CmpByValue(a, b) == -CmpByValue(b, a)
    ensures CmpBySalesperson(a, b) == -CmpBySalesperson(b, a)
    ensures CmpByStore(a, b) == -CmpByStore(b, a)
  {
    CompareNamesAntisymmetric(a.customer, b.customer);
    CompareNamesAntisymmetric(a.salesperson, b.salesperson);
    ThenAntisymmetric(StoreKey(a), StoreKey(b), CmpBySalesperson(a, b), CmpBySalesperson(b, a));
  }

  /** Each comparator's "not above" is transitive. */
  lemma ComparatorsTransitive(a: Sale, b: Sale, c: Sale)
    ensures CmpByCustomer(a, b) <= 0 && CmpByCustomer(b, c) <= 0 ==> CmpByCustomer(a, c) <= 0
    ensures CmpByValue(a, b) <= 0 && CmpByValue(b, c) <= 0 ==> CmpByValue(a, c) <= 0
    ensures CmpBySalesperson(a, b) <= 0 && CmpBySalesperson(b, c) <= 0 ==> CmpBySalesperson(a, c) <= 0
    ensures CmpByStore(a, b) <= 0 && CmpByStore(b, c) <= 0 ==> CmpByStore(a, c) <= 0
  {
    if CmpByCustomer(a, b) <= 0 && CmpByCustomer(b, c) <= 0 {
      CompareNamesTransitive(a.customer, b.customer, c.customer);
    }
    if CmpBySalesperson(a, b) <= 0 && CmpBySalesperson(b, c) <= 0 {
      CompareNamesTransitive(a.salesperson, b.salesperson, c.salesperson);
    }
    if CmpByStore(a, b) <= 0 && CmpByStore(b, c) <= 0 {
      ThenTransitive(StoreKey(a), StoreKey(b), StoreKey(c),
                     CmpBySalesperson(a, b), CmpBySalesperson(b, c), CmpBySalesperson(a, c));
    }
  }

  /** What the sorted linked list needs of a comparator, on any sales. */
  lemma ComparatorOrders(cmp: (Sale, Sale) -> int, sales: seq<Sale>)
    requires cmp == CmpByCustomer || cmp == CmpByValue || cmp == CmpBySalesperson || cmp == CmpByStore
    ensures AntisymmetricOn(cmp, sales) && TransitiveOn(cmp, sales)
  {
    forall a, b | a in sales && b in sales
      ensures cmp(a, b) > 0 <==> cmp(b, a) < 0
    {
      ComparatorsAntisymmetric(a, b);
    }
    forall a, b, c | a in sales && b in sales && c in sales && cmp(a, b) <= 0 && cmp(b, c) <= 0
      ensures cmp(a, c) <= 0
    {
      ComparatorsTransitive(a, b, c);
    }
  }

  // ---------------------------------------------------------------------------
  // printSalesCustomer, printSalesValue, printSalesStore

  /** The loops the three sorted reports share: each sale of `saleList`, in list
      order, is added to a new list ordered by `cmp`, whose sales are then printed in
      order until one of them throws. `bad` says which sales make `cmp` throw. */
  method SortedPrint(saleList: LinkedList<Sale>, cmp: (Sale, Sale) -> int, bad: Sale -> bool)
    returns (rows: seq<Sale>, thrown: bool)
    requires saleList.Valid()
    ensures CopyThrows(bad, saleList.Contents) ==> rows == [] && thrown
    ensures !CopyThrows(bad, saleList.Contents) ==>
              var sorted := AddedAll(Some(cmp), [], saleList.Contents);
              rows == PrintedPrefix(sorted) && (thrown <==> !Reportable(sorted))
  {
    var sorted, failed := CopySorted(saleList, cmp, bad);
    if failed {
      return [], true;
    }
    rows, thrown := PrintRows(sorted);
  }

  /** The comparator throws while copying: from the second sale on, each `add`
      compares the new sale with the head, so every sale meets the comparator once
      there are two. */
  predicate CopyThrows(bad: Sale -> bool, sales: seq<Sale>) {
    |sales| >= 2 && exists i :: 0 <= i < |sales| && bad(sales[i])
  }

  /** The first loop: a new list ordered by `cmp`, given each sale of `saleList` in
      turn, or `thrown` when comparing a sale with the head throws. */
  method CopySorted(saleList: LinkedList<Sale>, cmp: (Sale, Sale) -> int, bad: Sale -> bool)
    returns (sorted: LinkedList<Sale>, thrown: bool)
    requires saleList.Valid()
    ensures sorted.Valid()
    ensures thrown <==> CopyThrows(bad, saleList.Contents)
    ensures !thrown ==> sorted.Contents == AddedAll(Some(cmp), [], saleList.Contents)
  {
    sorted := new LinkedList<Sale>.WithComparator(cmp);
    ghost var xs := saleList.Contents;
    var n := saleList.Size();
    var first: Option<Sale> := None;
    var i := 0;
    while i < n
      invariant 0 <= i <= n == |xs|
      invariant Untouched(saleList, xs, sorted) && sorted.Valid() && sorted.comparator == Some(cmp)
      invariant fresh(sorted.Repr)
      invariant sorted.Contents == AddedAll(Some(cmp), [], xs[..i])
      invariant i >= 1 ==> first == Some(xs[0])
      invariant PassedCopy(bad, xs, i)
    {
      var stop;
      stop, first := CopyOne(saleList, sorted, i, bad, first, xs);
      if stop {
        return sorted, true;
      }
      i := i + 1;
    }
    assert xs[..n] == xs;
    PassedCopyAll(bad, xs);
    thrown := false;
  }

  /** The first `i` sales have been added without the comparator throwing. */
  predicate PassedCopy(bad: Sale -> bool, xs: seq<Sale>, i: nat) {
    i <= |xs| && (i >= 2 ==> forall k :: 0 <= k < i ==> !bad(xs[k]))
  }

  lemma CopyThrowsAt(bad: Sale -> bool, xs: seq<Sale>, i: nat)
    requires 1 <= i < |xs| && (bad(xs[i]) || bad(xs[0]))
    ensures CopyThrows(bad, xs)
  {
  }

  lemma PassedCopyStep(bad: Sale -> bool, xs: seq<Sale>, i: nat)
    requires i < |xs| && PassedCopy(bad, xs, i)
    requires i >= 1 ==> !bad(xs[i]) && !bad(xs[0])
    ensures PassedCopy(bad, xs, i + 1)
  {
  }

  lemma PassedCopyAll(bad: Sale -> bool, xs: seq<Sale>)
    requires PassedCopy(bad, xs, |xs|)
    ensures !CopyThrows(bad, xs)
  {
  }

  /** The body of the first loop: `add(sale)`, the sale `xs[i]`. From the second
      sale on, `compare(sale, head)` reads both sales, the head being the first sale
      or one that has already been compared; `stop` when that throws. */
  method CopyOne(saleList: LinkedList<Sale>, sorted: LinkedList<Sale>, i: nat, bad: Sale -> bool,
                 first: Option<Sale>, ghost xs: seq<Sale>)
    returns (stop: bool, first': Option<Sale>)
    requires Untouched(saleList, xs, sorted)
    requires sorted.Valid() && sorted.comparator.Some? && i < |xs|
    requires sorted.Contents == AddedAll(sorted.comparator, [], xs[..i])
    requires i >= 1 ==> first == Some(xs[0])
    requires PassedCopy(bad, xs, i)
    modifies sorted.Repr
    ensures sorted.Valid() && fresh(sorted.Repr - old(sorted.Repr))
    ensures Untouched(saleList, xs, sorted)
    ensures stop ==> CopyThrows(bad, xs)
    ensures !stop ==> sorted.Contents == AddedAll(sorted.comparator, [], xs[..i + 1])
    ensures !stop ==> first' == Some(xs[0]) && PassedCopy(bad, xs, i + 1)
  {
    var sale := saleList.Get(i);
    if i > 0 && (bad(sale.value) || bad(first.value)) {
      CopyThrowsAt(bad, xs, i);
      return true, first;
    }
    PassedCopyStep(bad, xs, i);
    first' := if i == 0 then Some(sale.value) else first;
    AddNext(saleList, sorted, sale.value, xs, i);
    stop := false;
  }

  /** Adding to `sorted` leaves the list being copied as it was. */
  ghost predicate Untouched(saleList: LinkedList<Sale>, contents: seq<Sale>, sorted: LinkedList<Sale>)
    reads saleList, saleList.Repr, sorted
  {
    saleList.Valid() && saleList.Contents == contents && saleList.Repr !! sorted.Repr
  }

  /** `add(sale)`, the sale `xs[i]`, on a list holding the first `i` sales added in turn. */
  method AddNext(saleList: LinkedList<Sale>, sorted: LinkedList<Sale>, sale: Sale, ghost xs: seq<Sale>, ghost i: nat)
    requires saleList.Valid() && saleList.Repr !! sorted.Repr
    requires sorted.Valid() && sorted.comparator.Some? && i < |xs| && sale == xs[i]
    requires sorted.Contents == AddedAll(sorted.comparator, [], xs[..i])
    modifies sorted.Repr
    ensures sorted.Valid() && fresh(sorted.Repr - old(sorted.Repr))
    ensures sorted.Contents == AddedAll(sorted.comparator, [], xs[..i + 1])
    ensures Untouched(saleList, old(saleList.Contents), sorted)
  {
    AddedAllSnoc(sorted.comparator.value, xs, i);
    sorted.Add(sale);
  }

  lemma AddedAllSnoc(cmp: (Sale, Sale) -> int, xs: seq<Sale>, i: nat)
    requires i < |xs|
    ensures AddedAll(Some(cmp), [], xs[..i + 1]) == Added(Some(cmp), AddedAll(Some(cmp), [], xs[..i]), xs[i])
  {
    assert xs[..i + 1][..i] == xs[..i];
  }

  /** A report row reads the sale's store code and its grand total, so it throws
      `NullPointerException` for a sale without a store or with a null item. */
  predicate Printable(s: Sale) {
    s.store != null && Priced(s.items)
  }

  /** The index of the first sale whose row throws, or the number of sales. */
  function FirstUnprintable(rows: seq<Sale>): (k: nat)
    ensures k <= |rows|
    ensures forall i :: 0 <= i < k ==> Printable(rows[i])
    ensures k < |rows| ==> !Printable(rows[k])
  {
    if |rows| == 0 || !Printable(rows[0]) then 0
    else 1 + FirstUnprintable(rows[1..])
  }

  /** The rows printed before the first one that throws. */
  function PrintedPrefix(rows: seq<Sale>): seq<Sale> {
    rows[..FirstUnprintable(rows)]
  }

  /** The second loop: `get(i)` for each index in turn, each printed with its store
      code and grand total, until a row throws. */
  method PrintRows(list: LinkedList<Sale>) returns (rows: seq<Sale>, thrown: bool)
    requires list.Valid()
    ensures rows == PrintedPrefix(list.Contents)
    ensures thrown <==> !Reportable(list.Contents)
  {
    rows := [];
    var m := list.Size();
    var j := 0;
    while j < m
      invariant 0 <= j <= m == |list.Contents|
      invariant rows == list.Contents[..j]
      invariant forall k :: 0 <= k < j ==> Printable(list.Contents[k])
    {
      var s := list.Get(j);
      var sale := s.value;
      if sale.store == null {
        FirstUnprintableAt(list.Contents, j);
        return rows, true;
      }
      var total := sale.SaleGrandTotal();
      if total.None? {
        FirstUnprintableAt(list.Contents, j);
        return rows, true;
      }
      rows := rows + [sale];
      j := j + 1;
    }
    FirstUnprintableAt(list.Contents, j);
    thrown := false;
  }

  /** The first row that throws is the first that is not printable, and one throws
      exactly when the sales are not all reportable. */
  lemma FirstUnprintableAt(rows: seq<Sale>, j: nat)
    requires j <= |rows| && forall k :: 0 <= k < j ==> Printable(rows[k])
    requires j < |rows| ==> !Printable(rows[j])
    ensures FirstUnprintable(rows) == j
    ensures j < |rows| <==> !Reportable(rows)
  {
  }

  /** The sales the sorted report lists, in order: every sale of the list exactly
      once, each pair in comparator order. */
  ghost predicate ReportOrder(cmp: (Sale, Sale) -> int, rows: seq<Sale>, sales: seq<Sale>) {
    multiset(rows) == multiset(sales) && SortedPairwise(cmp, rows)
  }

  lemma SortedReport(cmp: (Sale, Sale) -> int, sales: seq<Sale>)
    requires cmp == CmpByCustomer || cmp == CmpByValue || cmp == CmpBySalesperson || cmp == CmpByStore
    ensures ReportOrder(cmp, AddedAll(Some(cmp), [], sales), sales)
  {
    var rows := AddedAll(Some(cmp), [], sales);
    ComparatorOrders(cmp, sales);
    AddedAllSorted(cmp, sales);
    ComparatorOrders(cmp, rows);
    SortedIsPairwise(cmp, rows);
  }

  /** What a sorted report prints: sales of the list, in comparator order, none of
      whose rows throws. */
  ghost predicate PrintedInOrder(cmp: (Sale, Sale) -> int, rows: seq<Sale>, sales: seq<Sale>) {
    multiset(rows) <= multiset(sales) && SortedPairwise(cmp, rows) &&
    forall i :: 0 <= i < |rows| ==> Printable(rows[i])
  }

  /** A sorted report prints its sales in comparator order, throws exactly when some
      sale of the list cannot be printed, and otherwise prints every sale once. */
  lemma SortedReportPrinted(cmp: (Sale, Sale) -> int, sales: seq<Sale>)
    requires cmp == CmpByCustomer || cmp == CmpByValue || cmp == CmpBySalesperson || cmp == CmpByStore
    ensures var sorted := AddedAll(Some(cmp), [], sales);
            PrintedInOrder(cmp, PrintedPrefix(sorted), sales) &&
            (Reportable(sorted) <==> Reportable(sales)) &&
            (Reportable(sales) ==> PrintedPrefix(sorted) == sorted && ReportOrder(cmp, sorted, sales))
  {
    SortedReport(cmp, sales);
    PrintedOfReport(cmp, AddedAll(Some(cmp), [], sales), sales);
  }

  /** What is printed of a report's rows before one throws keeps their order. */
  lemma PrintedOfReport(cmp: (Sale, Sale) -> int, rows: seq<Sale>, sales: seq<Sale>)
    requires ReportOrder(cmp, rows, sales)
    ensures PrintedInOrder(cmp, PrintedPrefix(rows), sales)
    ensures Reportable(rows) <==> Reportable(sales)
    ensures Reportable(sales) ==> PrintedPrefix(rows) == rows
  {
    var k := FirstUnprintable(rows);
    PrefixSubMultiset(rows, k);
    if Reportable(rows) {
      ReportableOfPermutation(rows, sales);
    }
    if Reportable(sales) {
      ReportableOfPermutation(sales, rows);
    }
    FirstUnprintableAt(rows, k);
  }

  lemma PrefixSubMultiset(rows: seq<Sale>, k: nat)
    requires k <= |rows|
    ensures multiset(rows[..k]) <= multiset(rows)
  {
    assert rows == rows[..k] + rows[k..];
  }

  /** Whether some sale cannot be printed does not depend on the order of the sales. */
  lemma ReportableOfPermutation(a: seq<Sale>, b: seq<Sale>)
    requires multiset(a) == multiset(b) && Reportable(a)
    ensures Reportable(b)
  {
    forall j | 0 <= j < |b|
      ensures Printable(b[j])
    {
      assert b[j] in multiset(a);
    }
  }

  /** `cmpByCustomer` reads each customer's last name; a missing one throws. */
  predicate CustomerCmpThrows(s: Sale) {
    s.customer.lastName.None?
  }

  /** `cmpByValue` reads each sale's grand total; a null item throws. */
  predicate ValueCmpThrows(s: Sale) {
    !Priced(s.items)
  }

  /** `cmpByStore` reads each sale's store code; a missing store throws. */
  predicate StoreCmpThrows(s: Sale) {
    s.store == null
  }

  /** Nothing is printed when the copy throws. */
  lemma NothingPrinted(cmp: (Sale, Sale) -> int, sales: seq<Sale>)
    ensures PrintedInOrder(cmp, [], sales)
  {
    var none: seq<Sale> := [];
    assert multiset(none) == multiset{};
  }

  /** `printSalesCustomer`: the sales by customer name, printed until a row throws;
      nothing is printed when the comparator throws while copying. */
  method PrintSalesCustomer(saleList: LinkedList<Sale>) returns (rows: seq<Sale>, thrown: bool)
    requires saleList.Valid()
    ensures rows == if CopyThrows(CustomerCmpThrows, saleList.Contents) then []
                    else PrintedPrefix(AddedAll(Some(CmpByCustomer), [], saleList.Contents))
    ensures PrintedInOrder(CmpByCustomer, rows, saleList.Contents)
    ensures thrown <==> CopyThrows(CustomerCmpThrows, saleList.Contents) || !Reportable(saleList.Contents)
    ensures !thrown ==> ReportOrder(CmpByCustomer, rows, saleList.Contents)
  {
    rows, thrown := SortedPrint(saleList, CmpByCustomer, CustomerCmpThrows);
    SortedReportPrinted(CmpByCustomer, saleList.Contents);
    NothingPrinted(CmpByCustomer, saleList.Contents);
  }

  /** `printSalesValue`: the sales by grand total, largest first, printed until a row
      throws; nothing is printed when the comparator throws while copying. */
  method PrintSalesValue(saleList: LinkedList<Sale>) returns (rows: seq<Sale>, thrown: bool)
    requires saleList.Valid()
    ensures rows == if CopyThrows(ValueCmpThrows, saleList.Contents) then []
                    else PrintedPrefix(AddedAll(Some(CmpByValue), [], saleList.Contents))
    ensures PrintedInOrder(CmpByValue, rows, saleList.Contents)
    ensures thrown <==> !Reportable(saleList.Contents)
    ensures !thrown ==> ReportOrder(CmpByValue, rows, saleList.Contents)
  {
    rows, thrown := SortedPrint(saleList, CmpByValue, ValueCmpThrows);
    SortedReportPrinted(CmpByValue, saleList.Contents);
    NothingPrinted(CmpByValue, saleList.Contents);
    CopyThrowsUnreportable(ValueCmpThrows, saleList.Contents);
  }

  /** `printSalesStore`: the sales by store code, then by salesperson name, printed
      until a row throws; nothing is printed when the comparator throws while copying. */
  method PrintSalesStore(saleList: LinkedList<Sale>) returns (rows: seq<Sale>, thrown: bool)
    requires saleList.Valid()
    ensures rows == if CopyThrows(StoreCmpThrows, saleList.Contents) then []
                    else PrintedPrefix(AddedAll(Some(CmpByStore), [], saleList.Contents))
    ensures PrintedInOrder(CmpByStore, rows, saleList.Contents)
    ensures thrown <==> !Reportable(saleList.Contents)
    ensures !thrown ==> ReportOrder(CmpByStore, rows, saleList.Contents)
  {
    rows, thrown := SortedPrint(saleList, CmpByStore, StoreCmpThrows);
    SortedReportPrinted(CmpByStore, saleList.Contents);
    NothingPrinted(CmpByStore, saleList.Contents);
    CopyThrowsUnreportable(StoreCmpThrows, saleList.Contents);
  }

  /** A sale that makes the value or store comparator throw cannot be printed either,
      so the two reports throw exactly when some sale is unprintable. */
  lemma CopyThrowsUnreportable(bad: Sale -> bool, sales: seq<Sale>)
    requires bad == ValueCmpThrows || bad == StoreCmpThrows
    ensures CopyThrows(bad, sales) ==> !Reportable(sales)
  {
    if CopyThrows(bad, sales) {
      var i :| 0 <= i < |sales| && bad(sales[i]);
      assert !Printable(sales[i]);
    }
  }

  /** The value report lists no sale after one with a smaller grand total. */
  lemma ValueReportDescending(sales: seq<Sale>)
    ensures var rows := AddedAll(Some(CmpByValue), [], sales);
            forall i, j :: 0 <= i < j < |rows| ==> SaleValue(rows[i]) >= SaleValue(rows[j])
  {
    SortedReport(CmpByValue, sales);
  }

  /** The store report groups the sales of a store together: no sale of another
      store comes between two sales of the same store. */
  lemma StoreReportGrouped(sales: seq<Sale>)
    ensures var rows := AddedAll(Some(CmpByStore), [], sales);
            forall i, j, k :: 0 <= i < j < k < |rows| && StoreKey(rows[i]) == StoreKey(rows[k]) ==>
              StoreKey(rows[j]) == StoreKey(rows[i])
  {
    var rows := AddedAll(Some(CmpByStore), [], sales);
    SortedReport(CmpByStore, sales);
    forall i, j, k | 0 <= i < j < k < |rows| && StoreKey(rows[i]) == StoreKey(rows[k])
      ensures StoreKey(rows[j]) == StoreKey(rows[i])
    {
      var x, y, z := StoreKey(rows[i]), StoreKey(rows[j]), StoreKey(rows[k]);
      assert CmpByStore(rows[i], rows[j]) <= 0 && CmpByStore(rows[j], rows[k]) <= 0;
      JavaString.CompareToZeroIff(x, y);
      JavaString.CompareToZeroIff(y, z);
      JavaString.CompareToAntisymmetric(x, y);
    }
  }

  // ---------------------------------------------------------------------------
  // printSales

  /** The tax of a sale where the report reads it. */
  function SaleTax(s: Sale): real {
    if Priced(s.items) then TaxOf(s.items) else 0.0
  }

  /** The sum of `f` over the sales. */
  function Sum(sales: seq<Sale>, f: Sale -> real): real {
    if |sales| == 0 then 0.0 else Sum(sales[..|sales| - 1], f) + f(sales[|sales| - 1])
  }

  /** The number of items over the sales. */
  function ItemCount(sales: seq<Sale>): int {
    if |sales| == 0 then 0 else ItemCount(sales[..|sales| - 1]) + sales[|sales| - 1].NumItems()
  }

  /** The footer of the summary report: the item count, the tax and the grand total. */
  datatype Summary = Summary(numItems: int, tax: real, total: real)

  /** Every sale has a store and can be priced: what the summary reports read. */
  predicate Reportable(sales: seq<Sale>) {
    forall i :: 0 <= i < |sales| ==> Printable(sales[i])
  }

  /** `printSales(salesMap)`: `sales` is `salesMap.values()` in iteration order, and
      `None` a null map, for which nothing is printed. A row reads the sale's store
      code and its totals, so a sale that is not `Printable` throws
      `NullPointerException` (`thrown`) and no footer is printed. */
  method PrintSales(sales: Option<seq<Sale>>) returns (r: Option<Summary>, thrown: bool)
    ensures thrown <==> sales.Some? && !Reportable(sales.value)
    ensures r.Some? <==> sales.Some? && !thrown
    ensures r.Some? ==> r.value == Summary(ItemCount(sales.value), Sum(sales.value, SaleTax), Sum(sales.value, SaleValue))
  {
    if sales.None? {
      return None, false;
    }
    var values := sales.value;
    var overallTax := 0.0;
    var overallTotal := 0.0;
    var totalCounter := 0;
    var i := 0;
    while i < |values|
      invariant 0 <= i <= |values|
      invariant forall k :: 0 <= k < i ==> Printable(values[k])
      invariant overallTax == Sum(values[..i], SaleTax) && overallTotal == Sum(values[..i], SaleValue)
      invariant totalCounter == ItemCount(values[..i])
    {
      var s := values[i];
      assert values[..i + 1][..i] == values[..i];
      if s.store == null {
        return None, true;
      }
      var tax := s.SaleTotalTax();
      if tax.None? {
        return None, true;
      }
      var total := s.SaleGrandTotal();
      overallTax := overallTax + tax.value;
      overallTotal := overallTotal + total.value;
      totalCounter := totalCounter + s.NumItems();
      i := i + 1;
    }
    assert values[..i] == values;
    r, thrown := Some(Summary(totalCounter, overallTax, overallTotal)), false;
  }

  lemma SumSnoc(sales: seq<Sale>, x: Sale, f: Sale -> real)
    ensures Sum(sales + [x], f) == Sum(sales, f) + f(x)
    ensures ItemCount(sales + [x]) == ItemCount(sales) + x.NumItems()
  {
    assert (sales + [x])[..|sales|] == sales;
  }

  /** Taking out one sale takes out its share of the sums. */
  lemma {:induction false} SumRemove(sales: seq<Sale>, j: nat, f: Sale -> real)
    requires j < |sales|
    ensures Sum(sales, f) == Sum(sales[..j] + sales[j + 1..], f) + f(sales[j])
    ensures ItemCount(sales) == ItemCount(sales[..j] + sales[j + 1..]) + sales[j].NumItems()
    decreases |sales|
  {
    var n := |sales|;
    if j < n - 1 {
      var init := sales[..n - 1];
      SumRemove(init, j, f);
      var rest := init[..j] + init[j + 1..];
      assert sales[..j] + sales[j + 1..] == rest + [sales[n - 1]];
      SumSnoc(rest, sales[n - 1], f);
    } else {
      assert sales[..j] + sales[j + 1..] == sales[..n - 1];
    }
  }

  /** The footer does not depend on the order the map hands out its sales. */
  lemma {:induction false} SummaryOrderFree(a: seq<Sale>, b: seq<Sale>, f: Sale -> real)
    requires multiset(a) == multiset(b)
    ensures Sum(a, f) == Sum(b, f) && ItemCount(a) == ItemCount(b)
    decreases |a|
  {
    if |a| > 0 {
      var x := a[|a| - 1];
      assert x in multiset(b);
      var j :| 0 <= j < |b| && b[j] == x;
      var b' := b[..j] + b[j + 1..];
      assert b == b[..j] + [x] + b[j + 1..];
      assert a == a[..|a| - 1] + [x];
      assert multiset(a) == multiset(a[..|a| - 1]) + multiset{x};
      assert multiset(b) == multiset(b[..j]) + multiset{x} + multiset(b[j + 1..]);
      assert multiset(b') == multiset(b[..j]) + multiset(b[j + 1..]);
      assert multiset(a[..|a| - 1]) == multiset(a) - multiset{x};
      assert multiset(b') == multiset(b) - multiset{x};
      SummaryOrderFree(a[..|a| - 1], b', f);
      SumRemove(b, j, f);
    } else {
      assert multiset(b) == multiset{};
    }
  }

  /** The footer's tax is a whole number of cents, as each item's tax is. */
  lemma {:induction false} SummaryTaxIsCents(sales: seq<Sale>)
    requires Reportable(sales)
    ensures IsCents(Sum(sales, SaleTax))
    decreases |sales|
  {
    if |sales| == 0 {
      assert (0.0 * 100.0).Floor == 0;
    } else {
      var init := sales[..|sales| - 1];
      assert Reportable(init) by {
        forall i | 0 <= i < |init| ensures init[i].store != null && Priced(init[i].items) {
          assert init[i] == sales[i];
        }
      }
      SummaryTaxIsCents(init);
      TaxIsCents(sales[|sales| - 1].items);
      CentsAdd(Sum(init, SaleTax), SaleTax(sales[|sales| - 1]));
    }
  }

  // ---------------------------------------------------------------------------
  // printStore

  /** `sale.getStore().equals(store)`. */
  predicate SoldAt(sale: Sale, store: Store) {
    sale.store != null && StoreEquals(sale.store, store)
  }

  /** The sales of `store`, in order. */
  function StoreSales(sales: seq<Sale>, store: Store): (r: seq<Sale>)
    ensures |r| <= |sales|
  {
    if |sales| == 0 then []
    else StoreSales(sales[..|sales| - 1], store) + (if SoldAt(sales[|sales| - 1], store) then [sales[|sales| - 1]] else [])
  }

  /** One line of the store report: the store, its number of sales and their grand total. */
  datatype StoreLine = StoreLine(store: Store, numSales: int, total: real)

  /** The store report: one line per store, then the number of sales and the grand total. */
  datatype StoreSummary = StoreSummary(lines: seq<StoreLine>, totalSales: int, overallTotal: real)

  function LineOf(sales: seq<Sale>, store: Store): StoreLine {
    var mine := StoreSales(sales, store);
    StoreLine(store, |mine|, Sum(mine, SaleValue))
  }

  /** The number of sales counted over the stores. */
  function TotalSales(stores: seq<Store>, sales: seq<Sale>): int {
    if |stores| == 0 then 0 else TotalSales(stores[..|stores| - 1], sales) + |StoreSales(sales, stores[|stores| - 1])|
  }

  /** The grand total added up over the stores. */
  function OverallTotal(stores: seq<Store>, sales: seq<Sale>): real {
    if |stores| == 0 then 0.0 else OverallTotal(stores[..|stores| - 1], sales) + Sum(StoreSales(sales, stores[|stores| - 1]), SaleValue)
  }

  /** Counting `sale` for `store` throws `NullPointerException`: `sale.getStore().equals(store)`
      dereferences a null store, and a matching sale's grand total a null item. */
  predicate CountThrows(sale: Sale, store: Store) {
    sale.store == null || (StoreEquals(sale.store, store) && !Priced(sale.items))
  }

  /** The inner loop for `store` throws on some sale. */
  predicate StoreThrows(store: Store, sales: seq<Sale>) {
    exists j :: 0 <= j < |sales| && CountThrows(sales[j], store)
  }

  /** `printStore(storesMap, salesMap)`: `stores` and `sales` are the maps' values in
      iteration order, `stores` being `None` for a null map. When a store's inner
      loop throws (`thrown`), no summary is printed. */
  method PrintStore(stores: Option<seq<Store>>, sales: seq<Sale>) returns (r: Option<StoreSummary>, thrown: bool)
    ensures thrown <==> stores.Some? && exists k :: 0 <= k < |stores.value| && StoreThrows(stores.value[k], sales)
    ensures r.Some? <==> stores.Some? && !thrown
    ensures r.Some? ==>
              r.value.lines == seq(|stores.value|, k requires 0 <= k < |stores.value| => LineOf(sales, stores.value[k])) &&
              r.value.totalSales == TotalSales(stores.value, sales) &&
              r.value.overallTotal == OverallTotal(stores.value, sales)
  {
    if stores.None? {
      return None, false;
    }
    var values := stores.value;
    var lines: seq<StoreLine> := [];
    var totalSales := 0;
    var overallTotal := 0.0;
    var k := 0;
    while k < |values|
      invariant 0 <= k <= |values|
      invariant forall k' :: 0 <= k' < k ==> !StoreThrows(values[k'], sales)
      invariant |lines| == k && forall k' :: 0 <= k' < k ==> lines[k'] == LineOf(sales, values[k'])
      invariant totalSales == TotalSales(values[..k], sales)
      invariant overallTotal == OverallTotal(values[..k], sales)
    {
      var store := values[k];
      assert values[..k + 1][..k] == values[..k];
      var numSales, totalPerStore, failed := StoreTotals(store, sales);
      if failed {
        return None, true;
      }
      totalSales := totalSales + numSales;
      overallTotal := overallTotal + totalPerStore;
      lines := lines + [StoreLine(store, numSales, totalPerStore)];
      k := k + 1;
    }
    assert values[..k] == values;
    r, thrown := Some(StoreSummary(lines, totalSales, overallTotal)), false;
  }

  /** The inner loop of `printStore`: the number of sales of `store` and their grand
      total, or `thrown` when counting a sale throws. (The source counts `totalSales`
      up inside this loop; adding `numSales` afterwards gives the same count.) */
  method StoreTotals(store: Store, sales: seq<Sale>) returns (numSales: int, totalPerStore: real, thrown: bool)
    ensures thrown <==> StoreThrows(store, sales)
    ensures !thrown ==> numSales == |StoreSales(sales, store)|
    ensures !thrown ==> totalPerStore == Sum(StoreSales(sales, store), SaleValue)
  {
    numSales := 0;
    totalPerStore := 0.0;
    var j := 0;
    while j < |sales|
      invariant 0 <= j <= |sales|
      invariant forall k :: 0 <= k < j ==> !CountThrows(sales[k], store)
      invariant numSales == |StoreSales(sales[..j], store)|
      invariant totalPerStore == Sum(StoreSales(sales[..j], store), SaleValue)
    {
      var sale := sales[j];
      if sale.store == null {
        assert CountThrows(sales[j], store);
        return numSales, totalPerStore, true;
      }
      ghost var before := StoreSales(sales[..j], store);
      StoreSalesPrefix(sales, j, store);
      if StoreEquals(sale.store, store) {
        var t := sale.SaleGrandTotal();
        if t.None? {
          assert CountThrows(sales[j], store);
          return numSales, totalPerStore, true;
        }
        SumSnoc(before, sale, SaleValue);
        assert t.value == SaleValue(sale);
        totalPerStore := totalPerStore + t.value;
        numSales := numSales + 1;
      } else {
        assert StoreSales(sales[..j + 1], store) == before + [];
        assert before + [] == before;
      }
      j := j + 1;
    }
    assert sales[..j] == sales;
    thrown := false;
  }

  /** The store report throws for no store when every sale is reportable, and for
      every store when some sale has no store. */
  lemma StoreReportThrows(stores: seq<Store>, sales: seq<Sale>)
    ensures Reportable(sales) ==> forall k :: 0 <= k < |stores| ==> !StoreThrows(stores[k], sales)
    ensures (exists j :: 0 <= j < |sales| && sales[j].store == null) ==>
              forall k :: 0 <= k < |stores| ==> StoreThrows(stores[k], sales)
  {
    if Reportable(sales) {
      forall k, j | 0 <= k < |stores| && 0 <= j < |sales|
        ensures !CountThrows(sales[j], stores[k])
      {
        assert Printable(sales[j]);
      }
    }
  }

  /** The number of the stores that `sale` was sold at. */
  function MatchCount(stores: seq<Store>, sale: Sale): nat {
    if |stores| == 0 then 0 else MatchCount(stores[..|stores| - 1], sale) + (if SoldAt(sale, stores[|stores| - 1]) then 1 else 0)
  }

  /** The sales of `store` among one more of `sales`. */
  lemma StoreSalesPrefix(sales: seq<Sale>, j: nat, store: Store)
    requires j < |sales|
    ensures StoreSales(sales[..j + 1], store) ==
            StoreSales(sales[..j], store) + (if SoldAt(sales[j], store) then [sales[j]] else [])
  {
    assert sales[..j + 1] == sales[..j] + [sales[j]];
    StoreSalesSnoc(sales[..j], sales[j], store);
  }

  lemma StoreSalesSnoc(sales: seq<Sale>, x: Sale, store: Store)
    ensures StoreSales(sales + [x], store) == StoreSales(sales, store) + (if SoldAt(x, store) then [x] else [])
  {
    assert (sales + [x])[..|sales|] == sales;
  }

  /** One more sale adds to the sale count once for each store it matches. */
  lemma {:induction false} TotalSalesSnoc(stores: seq<Store>, sales: seq<Sale>, x: Sale)
    ensures TotalSales(stores, sales + [x]) == TotalSales(stores, sales) + MatchCount(stores, x)
    decreases |stores|
  {
    if |stores| > 0 {
      TotalSalesSnoc(stores[..|stores| - 1], sales, x);
      StoreSalesSnoc(sales, x, stores[|stores| - 1]);
    }
  }

  /** One more sale that matches at most one store adds its grand total when it
      matches one. */
  lemma {:induction false} OverallTotalSnoc(stores: seq<Store>, sales: seq<Sale>, x: Sale)
    requires MatchCount(stores, x) <= 1
    ensures OverallTotal(stores, sales + [x]) ==
              OverallTotal(stores, sales) + (if MatchCount(stores, x) == 1 then SaleValue(x) else 0.0)
    decreases |stores|
  {
    if |stores| > 0 {
      var last := stores[|stores| - 1];
      OverallTotalSnoc(stores[..|stores| - 1], sales, x);
      StoreSalesSnoc(sales, x, last);
      if SoldAt(x, last) {
        SumSnoc(StoreSales(sales, last), x, SaleValue);
      } else {
        assert StoreSales(sales + [x], last) == StoreSales(sales, last);
      }
    }
  }

  /** The store codes are distinct, as they are for the values of a map keyed by code. */
  predicate DistinctCodes(stores: seq<Store>) {
    forall i, j :: 0 <= i < j < |stores| ==> stores[i].storeCode != stores[j].storeCode
  }

  /** A sale whose store code is one of distinct codes matches exactly one store. */
  lemma {:induction false} MatchCountOne(stores: seq<Store>, sale: Sale)
    requires DistinctCodes(stores) && sale.store != null
    requires exists i :: 0 <= i < |stores| && stores[i].storeCode == sale.store.storeCode
    ensures MatchCount(stores, sale) == 1
    decreases |stores|
  {
    var n := |stores|;
    var init := stores[..n - 1];
    assert DistinctCodes(init) by {
      forall i, j | 0 <= i < j < |init| ensures init[i].storeCode != init[j].storeCode {
        assert init[i] == stores[i] && init[j] == stores[j];
      }
    }
    if stores[n - 1].storeCode == sale.store.storeCode {
      MatchCountNone(init, sale);
    } else {
      var i :| 0 <= i < n && stores[i].storeCode == sale.store.storeCode;
      assert init[i] == stores[i];
      MatchCountOne(init, sale);
    }
  }

  lemma {:induction false} MatchCountNone(stores: seq<Store>, sale: Sale)
    requires sale.store != null
    requires forall i :: 0 <= i < |stores| ==> stores[i].storeCode != sale.store.storeCode
    ensures MatchCount(stores, sale) == 0
    decreases |stores|
  {
    if |stores| > 0 {
      MatchCountNone(stores[..|stores| - 1], sale);
    }
  }

  /** Every sale of a known store is counted once: with distinct store codes and
      every sale's store among them, the report's sale count is the number of sales
      and its grand total the total over all sales. */
  lemma {:induction false} EachSaleCountedOnce(stores: seq<Store>, sales: seq<Sale>)
    requires DistinctCodes(stores)
    requires forall j :: 0 <= j < |sales| ==>
               sales[j].store != null &&
               exists i :: 0 <= i < |stores| && stores[i].storeCode == sales[j].store.storeCode
    ensures TotalSales(stores, sales) == |sales|
    ensures OverallTotal(stores, sales) == Sum(sales, SaleValue)
    decreases |sales|
  {
    if |sales| == 0 {
      EmptyStoreTotals(stores);
    } else {
      var init, x := sales[..|sales| - 1], sales[|sales| - 1];
      EachSaleCountedOnce(stores, init);
      assert sales == init + [x];
      MatchCountOne(stores, x);
      TotalSalesSnoc(stores, init, x);
      OverallTotalSnoc(stores, init, x);
    }
  }

  lemma {:induction false} EmptyStoreTotals(stores: seq<Store>)
    ensures TotalSales(stores, []) == 0 && OverallTotal(stores, []) == 0.0
    decreases |stores|
  {
    if |stores| > 0 {
      EmptyStoreTotals(stores[..|stores| - 1]);
    }
  }
}
