/** Stores and sales. A store is an object with a fixed code, manager and address
    and a growing list of sales; two stores are equal when their codes are. A sale
    is a value here: its code, store (null when the store code was unknown),
    customer, salesperson, date and the items sold, where an item is null when the
    loader did not recognise the sale-item line. Two sales are equal when their
    codes, dates and item lists are. */
module Sales {
  import opened Wrappers
  import opened Money
  import opened Dates
  import opened Items
  import opened Addresses
  import Persons
  import JavaString

  class Store {
    const storeCode: string
    const manager: Persons.Person
    const address: Address
    var sales: seq<Sale>

    constructor (storeCode: string, manager: Persons.Person, address: Address)
      ensures this.storeCode == storeCode && this.manager == manager && this.address == address
      ensures sales == []
    {
      this.storeCode := storeCode;
      this.manager := manager;
      this.address := address;
      this.sales := [];
    }

    method AddSale(s: Sale)
      modifies this
      ensures sales == old(sales) + [s]
    {
      sales := sales + [s];
    }

    /** `Objects.hash(storeCode)`: `31 * 1 + storeCode.hashCode()` in `int` arithmetic. */
    function HashCode(): (h: int)
      ensures -JavaString.TwoTo31 <= h < JavaString.TwoTo31
    {
      JavaString.Wrap32(31 + JavaString.StringHash(storeCode))
    }
  }

  /** `a.equals(b)`: the same object, or another store with the same code; never null. */
  predicate StoreEquals(a: Store, b: Store?) {
    a == b || (b != null && a.storeCode == b.storeCode)
  }

  /** Store equality is the equality of codes, so it is an equivalence, and equal
      stores hash alike. */
  lemma StoreEqualsIsByCode(a: Store, b: Store?)
    ensures StoreEquals(a, b) <==> b != null && a.storeCode == b.storeCode
    ensures StoreEquals(a, a)
    ensures b != null ==> (StoreEquals(a, b) <==> StoreEquals(b, a))
    ensures StoreEquals(a, b) ==> b != null && a.HashCode() == b.HashCode()
  {
  }

  /** No item is null: what `saleSubTotal` and `saleTotalTax` need, since they call
      each item's price methods. */
  predicate Priced(items: seq<Option<Item>>) {
    forall i :: 0 <= i < |items| ==> items[i].Some?
  }

  lemma PricedPrefix(items: seq<Option<Item>>, n: nat)
    requires Priced(items) && n <= |items|
    ensures Priced(items[..n])
  {
    assert forall i :: 0 <= i < n ==> items[..n][i] == items[i];
  }

  /** A prefix with no null item grows by one more non-null item. */
  lemma PricedSnoc(items: seq<Option<Item>>, i: nat)
    requires i < |items| && Priced(items[..i]) && items[i].Some?
    ensures Priced(items[..i + 1])
  {
    assert forall k :: 0 <= k < i ==> items[..i + 1][k] == items[..i][k];
  }

  /** The sum of the items' subtotals. */
  function SubTotalOf(items: seq<Option<Item>>): real
    requires Priced(items)
  {
    if |items| == 0 then 0.0
    else
      PricedPrefix(items, |items| - 1);
      SubTotalOf(items[..|items| - 1]) + items[|items| - 1].value.SubTotal()
  }

  /** The sum of the items' taxes. */
  function TaxOf(items: seq<Option<Item>>): real
    requires Priced(items)
  {
    if |items| == 0 then 0.0
    else
      PricedPrefix(items, |items| - 1);
      TaxOf(items[..|items| - 1]) + items[|items| - 1].value.Taxes()
  }

  /** The sum of the items' own grand totals, an independent reading of a sale's total. */
  function ItemGrandTotals(items: seq<Option<Item>>): real
    requires Priced(items)
  {
    if |items| == 0 then 0.0
    else
      PricedPrefix(items, |items| - 1);
      ItemGrandTotals(items[..|items| - 1]) + items[|items| - 1].value.GrandTotal()
  }

  datatype Sale = Sale(saleCode: string, store: Store?, customer: Persons.Person,
                       salesperson: Persons.Person, date: Date, items: seq<Option<Item>>)
  {
    /** `saleSubTotal`: adds up the items' subtotals in list order, and throws
        `NullPointerException` (`None`) at the first null item. */
    method SaleSubTotal() returns (total: Option<real>)
      ensures total.Some? <==> Priced(items)
      ensures total.Some? ==> total.value == SubTotalOf(items)
    {
      var sum := 0.0;
      var i := 0;
      while i < |items|
        invariant 0 <= i <= |items|
        invariant Priced(items[..i]) && sum == SubTotalOf(items[..i])
      {
        if items[i].None? {
          return None;
        }
        assert items[..i + 1][..i] == items[..i];
        PricedSnoc(items, i);
        sum := sum + items[i].value.SubTotal();
        i := i + 1;
      }
      assert items[..i] == items;
      total := Some(sum);
    }

    /** `saleTotalTax`: adds up the items' taxes in list order, and throws
        `NullPointerException` (`None`) at the first null item. */
    method SaleTotalTax() returns (total: Option<real>)
      ensures total.Some? <==> Priced(items)
      ensures total.Some? ==> total.value == TaxOf(items)
    {
      var sum := 0.0;
      var i := 0;
      while i < |items|
        invariant 0 <= i <= |items|
        invariant Priced(items[..i]) && sum == TaxOf(items[..i])
      {
        if items[i].None? {
          return None;
        }
        assert items[..i + 1][..i] == items[..i];
        PricedSnoc(items, i);
        sum := sum + items[i].value.Taxes();
        i := i + 1;
      }
      assert items[..i] == items;
      total := Some(sum);
    }

    /** `saleGrandTotal`: the subtotal plus the tax; the subtotal's exception escapes. */
    method SaleGrandTotal() returns (total: Option<real>)
      ensures total.Some? <==> Priced(items)
      ensures total.Some? ==> total.value == GrandTotalOf(this)
    {
      var sub := SaleSubTotal();
      if sub.None? {
        return None;
      }
      var tax := SaleTotalTax();
      total := Some(sub.value + tax.value);
    }

    /** `getNumItems`: null items count too. */
    function NumItems(): nat {
      |items|
    }

    /** `addSale(item)`: the item, possibly null, goes at the end of the item list. */
    function AddSale(item: Option<Item>): (r: Sale)
      ensures r.items == items + [item]
      ensures r.saleCode == saleCode && r.store == store && r.customer == customer
      ensures r.salesperson == salesperson && r.date == date
    {
      this.(items := items + [item])
    }
  }

  function GrandTotalOf(s: Sale): real
    requires Priced(s.items)
  {
    SubTotalOf(s.items) + TaxOf(s.items)
  }

  /** `a.equals(b)`: the same date, the same items and the same code. The store and
      the people are not compared. */
  predicate SaleEquals(a: Sale, b: Sale) {
    a.date == b.date && a.items == b.items && a.saleCode == b.saleCode
  }

  /** `Objects.hash(date, itemsSold, saleCode)`, given the hash of a date and of an item:
      `31 * (31 * (31 + h(date)) + h(items)) + h(code)` in `int` arithmetic, where the
      list hash folds `31 * h + h(item)` from 1, a null item hashing to 0. */
  function SaleHash(s: Sale, dateHash: Date -> int, itemHash: Item -> int): (h: int)
    ensures -JavaString.TwoTo31 <= h < JavaString.TwoTo31
  {
    var h1 := JavaString.Wrap32(31 + dateHash(s.date));
    var h2 := JavaString.Wrap32(31 * h1 + ListHash(s.items, itemHash));
    JavaString.Wrap32(31 * h2 + JavaString.StringHash(s.saleCode))
  }

  /** `List.hashCode` over the items. */
  function ListHash(items: seq<Option<Item>>, itemHash: Item -> int): (h: int)
    ensures |items| > 0 ==> -JavaString.TwoTo31 <= h < JavaString.TwoTo31
  {
    if |items| == 0 then 1
    else
      var e := match items[|items| - 1] case None => 0 case Some(i) => itemHash(i);
      JavaString.Wrap32(31 * ListHash(items[..|items| - 1], itemHash) + e)
  }

  // ---------------------------------------------------------------------------
  // Properties

  /** Sale equality ignores the store and the people, and is an equivalence. */
  lemma SaleEqualsIsEquivalence(a: Sale, b: Sale, c: Sale)
    ensures SaleEquals(a, a)
    ensures SaleEquals(a, b) ==> SaleEquals(b, a)
    ensures SaleEquals(a, b) && SaleEquals(b, c) ==> SaleEquals(a, c)
    ensures SaleEquals(a, a.(store := b.store, customer := b.customer, salesperson := b.salesperson))
  {
  }

  /** Equal sales hash alike, whatever the date and item hashes are. */
  lemma SaleHashConsistent(a: Sale, b: Sale, dateHash: Date -> int, itemHash: Item -> int)
    requires SaleEquals(a, b)
    ensures SaleHash(a, dateHash, itemHash) == SaleHash(b, dateHash, itemHash)
  {
  }

  /** Adding an item adds its subtotal, its tax and one to the count. */
  lemma AddSaleTotals(s: Sale, item: Item)
    requires Priced(s.items)
    ensures Priced(s.AddSale(Some(item)).items)
    ensures SubTotalOf(s.AddSale(Some(item)).items) == SubTotalOf(s.items) + item.SubTotal()
    ensures TaxOf(s.AddSale(Some(item)).items) == TaxOf(s.items) + item.Taxes()
    ensures s.AddSale(Some(item)).NumItems() == s.NumItems() + 1
  {
    var items := s.AddSale(Some(item)).items;
    assert items[..|items| - 1] == s.items;
  }

  /** Adding a null item makes the sale unpriceable: its totals would dereference null. */
  lemma AddNullItemUnpriced(s: Sale)
    ensures !Priced(s.AddSale(None).items)
  {
    var items := s.AddSale(None).items;
    assert items[|items| - 1].None?;
  }

  /** The totals are additive over the item list. */
  lemma {:induction false} TotalsAppend(a: seq<Option<Item>>, b: seq<Option<Item>>)
    requires Priced(a) && Priced(b)
    ensures Priced(a + b)
    ensures SubTotalOf(a + b) == SubTotalOf(a) + SubTotalOf(b)
    ensures TaxOf(a + b) == TaxOf(a) + TaxOf(b)
    decreases |b|
  {
    if |b| > 0 {
      var b' := b[..|b| - 1];
      PricedPrefix(b, |b| - 1);
      TotalsAppend(a, b');
      assert (a + b)[..|a + b| - 1] == a + b';
    } else {
      assert a + b == a;
    }
  }

  /** The sale's grand total is the sum of its items' grand totals: for a product the
      two are both zero, for the rest grand total is subtotal plus taxes. */
  lemma {:induction false} GrandTotalIsSumOfItems(items: seq<Option<Item>>)
    requires Priced(items)
    ensures SubTotalOf(items) + TaxOf(items) == ItemGrandTotals(items)
    decreases |items|
  {
    if |items| > 0 {
      PricedPrefix(items, |items| - 1);
      GrandTotalIsSumOfItems(items[..|items| - 1]);
      var last := items[|items| - 1].value;
      GrandTotalIsSubTotalPlusTaxes(last);
    }
  }

  /** The tax of a sale is a whole number of cents, each item's tax being rounded. */
  lemma {:induction false} TaxIsCents(items: seq<Option<Item>>)
    requires Priced(items)
    ensures IsCents(TaxOf(items))
    decreases |items|
  {
    if |items| == 0 {
      assert (0.0 * 100.0).Floor == 0;
    } else {
      PricedPrefix(items, |items| - 1);
      TaxIsCents(items[..|items| - 1]);
      TaxesAreRoundedCents(items[|items| - 1].value);
      CentsAdd(TaxOf(items[..|items| - 1]), items[|items| - 1].value.Taxes());
    }
  }

  /** No total is negative when no item has a negative price or quantity. */
  lemma {:induction false} TotalsNonNegative(items: seq<Option<Item>>)
    requires Priced(items)
    requires forall i :: 0 <= i < |items| ==> NonNegativeInputs(items[i].value)
    ensures SubTotalOf(items) >= 0.0 && TaxOf(items) >= 0.0
    decreases |items|
  {
    if |items| > 0 {
      PricedPrefix(items, |items| - 1);
      TotalsNonNegative(items[..|items| - 1]);
      PricingNonNegative(items[|items| - 1].value);
    }
  }
}
