/** Catalog and sale-line items with their per-variant pricing. The Java hierarchy
    (an abstract Item; Product with its Purchase and Lease subclasses; Voice, Data,
    Service) is one tagged union here, and each overridden price method is a `match`. */
module Items {
  import opened Wrappers
  import opened Money
  import opened Dates
  import JavaString
  import Persons

  const PurchaseTaxRate: real := 0.065
  const VoiceTaxRate: real := 0.065
  const DataTaxRate: real := 0.055
  const ServiceTaxRate: real := 0.035
  const LeaseMarkup: real := 1.5
  /** A voice plan is priced per 30-day period. */
  const VoicePeriodDays: real := 30.0

  datatype Item =
    /** A catalog product, before it is sold as a purchase or a lease; it prices at zero. */
    | Product(code: string, name: string, basePrice: real)
    | Purchase(code: string, name: string, basePrice: real)
    | Lease(code: string, name: string, basePrice: real, startDate: Date, endDate: Date)
    /** `phoneNum` is null and `numDays` 0 for a catalog voice plan. */
    | Voice(code: string, name: string, pricePerPeriod: real, phoneNum: Option<string>, numDays: int)
    /** `numGBs` is 0 for a catalog data plan. */
    | Data(code: string, name: string, pricePerGB: real, numGBs: real)
    /** `numHours` is 0 and `servicer` null for a catalog service. */
    | Service(code: string, name: string, hourlyPrice: real, numHours: real, servicer: Persons.Person?)
  {
    /** `item instanceof Product`: the product and both of its subclasses. */
    predicate IsProduct() {
      Product? || Purchase? || Lease?
    }

    /** `Lease.getTime`: the whole months of the lease period. */
    function Term(): int
      requires Lease?
    {
      MonthsBetween(startDate, endDate)
    }

    /** `getSubTotal`. A lease of zero months divides by zero. */
    function SubTotal(): real {
      match this
      case Product(_, _, _) => 0.0
      case Purchase(_, _, base) => base
      case Lease(_, _, base, _, _) =>
        if Term() == 0 then ZeroTermRound(base * LeaseMarkup)
        else Round2(base * LeaseMarkup / Term() as real)
      case Voice(_, _, price, _, days) => Round2(price * (days as real / VoicePeriodDays))
      case Data(_, _, perGB, gbs) => Round2(gbs * perGB)
      case Service(_, _, hourly, hours, _) => Round2(hourly * hours)
    }

    /** `getTaxes`: the voice, data and service taxes are computed from the already
        rounded subtotal, the purchase tax from the base price. */
    function Taxes(): real
    {
      match this
      case Product(_, _, _) => 0.0
      case Purchase(_, _, base) => Round2(base * PurchaseTaxRate)
      case Lease(_, _, _, _, _) => 0.0
      case Voice(_, _, _, _, _) => Round2(SubTotal() * VoiceTaxRate)
      case Data(_, _, _, _) => Round2(SubTotal() * DataTaxRate)
      case Service(_, _, _, _, _) => Round2(SubTotal() * ServiceTaxRate)
    }

    /** `getGrandTotal`: zero for a catalog product, the subtotal plus the taxes otherwise. */
    function GrandTotal(): real
    {
      match this
      case Product(_, _, _) => 0.0
      case _ => SubTotal() + Taxes()
    }

    /** The tax rate the variant applies to its subtotal (to its base price for a purchase). */
    function TaxRate(): real {
      match this
      case Product(_, _, _) => 0.0
      case Purchase(_, _, _) => PurchaseTaxRate
      case Lease(_, _, _, _, _) => 0.0
      case Voice(_, _, _, _, _) => VoiceTaxRate
      case Data(_, _, _, _) => DataTaxRate
      case Service(_, _, _, _, _) => ServiceTaxRate
    }
  }

  const LongMax: int := 0x7FFF_FFFF_FFFF_FFFF
  const LongMin: int := -0x8000_0000_0000_0000

  /** `Math.round(x / 0 * 100) / 100.0`: the quotient is an infinity with the sign of
      `x`, on which `Math.round` saturates at `Long.MAX_VALUE` or `Long.MIN_VALUE`,
      or NaN when `x` is zero, which `Math.round` takes to 0. */
  function ZeroTermRound(x: real): (r: real)
    ensures IsCents(r)
    ensures x > 0.0 <==> r > 0.0
    ensures x < 0.0 <==> r < 0.0
  {
    if x > 0.0 then LongMax as real / 100.0
    else if x < 0.0 then LongMin as real / 100.0
    else 0.0
  }

  /** `Item.compareTo`: items are ordered by code alone. */
  function CompareTo(a: Item, b: Item): int {
    JavaString.CompareTo(a.code, b.code)
  }

  // ---------------------------------------------------------------------------
  // Constructors the catalog loader uses (the three-argument ones)

  /** `new Product(code, name, basePrice)`: a catalog product that prices at zero. */
  function CatalogProduct(code: string, name: string, basePrice: real): (i: Item)
    ensures i.IsProduct() && i.code == code && i.name == name && i.basePrice == basePrice
    ensures i.SubTotal() == 0.0 && i.Taxes() == 0.0 && i.GrandTotal() == 0.0
  {
    Product(code, name, basePrice)
  }

  /** `new Voice(code, name, pricePerPeriod)`: no phone number and zero days, so every
      total is zero. */
  function CatalogVoice(code: string, name: string, pricePerPeriod: real): (i: Item)
    ensures i.Voice? && i.code == code && i.name == name && i.pricePerPeriod == pricePerPeriod
    ensures i.phoneNum.None? && i.numDays == 0
    ensures i.SubTotal() == 0.0 && i.Taxes() == 0.0 && i.GrandTotal() == 0.0
  {
    var i := Voice(code, name, pricePerPeriod, None, 0);
    Round2Zero();
    i
  }

  /** `new Data(code, name, pricePerGB)`: zero GBs, so every total is zero. */
  function CatalogData(code: string, name: string, pricePerGB: real): (i: Item)
    ensures i.Data? && i.code == code && i.name == name && i.pricePerGB == pricePerGB
    ensures i.numGBs == 0.0
    ensures i.SubTotal() == 0.0 && i.Taxes() == 0.0 && i.GrandTotal() == 0.0
  {
    var i := Data(code, name, pricePerGB, 0.0);
    Round2Zero();
    i
  }

  /** `new Service(code, name, hourlyPrice)`: zero hours and no servicer, so every
      total is zero. */
  function CatalogService(code: string, name: string, hourlyPrice: real): (i: Item)
    ensures i.Service? && i.code == code && i.name == name && i.hourlyPrice == hourlyPrice
    ensures i.numHours == 0.0 && i.servicer == null
    ensures i.SubTotal() == 0.0 && i.Taxes() == 0.0 && i.GrandTotal() == 0.0
  {
    var i := Service(code, name, hourlyPrice, 0.0, null);
    Round2Zero();
    i
  }

  lemma Round2Zero()
    ensures Round2(0.0) == 0.0
  {
    assert (0.0 * 100.0 + 0.5).Floor == 0;
  }

  // ---------------------------------------------------------------------------
  // Properties of the pricing

  /** For every variant the grand total is the subtotal plus the taxes. */
  lemma GrandTotalIsSubTotalPlusTaxes(i: Item)
    ensures i.GrandTotal() == i.SubTotal() + i.Taxes()
  {
  }

  /** Taxes are whole cents and lie within half a cent of the rate times the taxed
      amount: the subtotal, or the base price of a purchase. */
  lemma TaxesAreRoundedCents(i: Item)
    ensures IsCents(i.Taxes())
    ensures var taxed := if i.Purchase? then i.basePrice else i.SubTotal();
            i.TaxRate() * taxed - 0.005 < i.Taxes() <= i.TaxRate() * taxed + 0.005
  {
    if i.Product? || i.Lease? {
      assert (0.0 * 100.0).Floor == 0;
    }
  }

  /** Every subtotal except a purchase's (which is the base price unrounded) is whole cents. */
  lemma SubTotalIsCents(i: Item)
    requires !i.Purchase?
    ensures IsCents(i.SubTotal())
  {
    if i.Product? {
      assert (0.0 * 100.0).Floor == 0;
    }
  }

  /** The quantities and prices of an item, when none is negative. */
  predicate NonNegativeInputs(i: Item) {
    match i
    case Product(_, _, base) => base >= 0.0
    case Purchase(_, _, base) => base >= 0.0
    case Lease(_, _, base, _, _) => base >= 0.0 && MonthsBetween(i.startDate, i.endDate) >= 0
    case Voice(_, _, price, _, days) => price >= 0.0 && days >= 0
    case Data(_, _, perGB, gbs) => perGB >= 0.0 && gbs >= 0.0
    case Service(_, _, hourly, hours, _) => hourly >= 0.0 && hours >= 0.0
  }

  /** Non-negative prices, quantities and lease terms give non-negative totals, and
      the grand total is then at least the subtotal. */
  lemma {:induction false} PricingNonNegative(i: Item)
    requires NonNegativeInputs(i)
    ensures i.SubTotal() >= 0.0 && i.Taxes() >= 0.0
    ensures i.GrandTotal() >= i.SubTotal()
  {
    match i
    case Product(_, _, _) =>
    case Purchase(_, _, base) =>
      RoundedProductNonNegative(base, PurchaseTaxRate);
    case Lease(_, _, base, _, _) =>
      if i.Term() != 0 {
        QuotientNonNegative(base * LeaseMarkup, i.Term() as real);
        Round2NonNegative(base * LeaseMarkup / i.Term() as real);
      }
    case Voice(_, _, price, _, days) =>
      QuotientNonNegative(days as real, VoicePeriodDays);
      RoundedProductNonNegative(price, days as real / VoicePeriodDays);
      RoundedProductNonNegative(i.SubTotal(), VoiceTaxRate);
    case Data(_, _, perGB, gbs) =>
      RoundedProductNonNegative(gbs, perGB);
      RoundedProductNonNegative(i.SubTotal(), DataTaxRate);
    case Service(_, _, hourly, hours, _) =>
      RoundedProductNonNegative(hourly, hours);
      RoundedProductNonNegative(i.SubTotal(), ServiceTaxRate);
  }

  lemma RoundedProductNonNegative(x: real, y: real)
    requires x >= 0.0 && y >= 0.0
    ensures x * y >= 0.0 && Round2(x * y) >= 0.0
  {
    Round2NonNegative(x * y);
  }

  lemma QuotientNonNegative(x: real, y: real)
    requires x >= 0.0 && y > 0.0
    ensures x / y >= 0.0
  {
  }

  /** Items with the same code compare as equal, whatever their variant or price, and
      only those. */
  lemma CompareToIsByCode(a: Item, b: Item)
    ensures CompareTo(a, b) == 0 <==> a.code == b.code
    ensures CompareTo(a, b) < 0 <==> JavaString.LexBefore(a.code, b.code)
  {
    JavaString.CompareToZeroIff(a.code, b.code);
    JavaString.CompareToNegativeIffLexBefore(a.code, b.code);
  }

  /** Swapping the items negates the comparison. */
  lemma CompareToAntisymmetric(a: Item, b: Item)
    ensures CompareTo(a, b) == -CompareTo(b, a)
  {
    JavaString.CompareToAntisymmetric(a.code, b.code);
  }

  // ---------------------------------------------------------------------------
  // Worked prices

  /** A 100.00 purchase: 6.50 tax, 106.50 in all. */
  lemma PurchaseExample()
    ensures Purchase("p", "n", 100.0).Taxes() == 6.5
    ensures Purchase("p", "n", 100.0).GrandTotal() == 106.5
  {
    assert (100.0 * PurchaseTaxRate * 100.0 + 0.5).Floor == 650;
  }

  /** A 1200.00 lease from 2024-01-01 to 2024-07-01: 300.00 a month, no tax. */
  lemma LeaseExample()
    ensures Lease("l", "n", 1200.0, Date(2024, 1, 1), Date(2024, 7, 1)).SubTotal() == 300.0
    ensures Lease("l", "n", 1200.0, Date(2024, 1, 1), Date(2024, 7, 1)).GrandTotal() == 300.0
  {
    assert MonthsBetween(Date(2024, 1, 1), Date(2024, 7, 1)) == 6;
    assert (1200.0 * LeaseMarkup / 6.0 * 100.0 + 0.5).Floor == 30000;
  }

  /** A lease that starts and ends on the same day has a term of zero months: its
      subtotal saturates for a positive price and is zero for a zero price. */
  lemma ZeroTermLeaseExample()
    ensures Lease("l", "n", 1200.0, Date(2024, 1, 1), Date(2024, 1, 1)).SubTotal() == LongMax as real / 100.0
    ensures Lease("l", "n", 0.0, Date(2024, 1, 1), Date(2024, 1, 1)).SubTotal() == 0.0
    ensures Lease("l", "n", -1.0, Date(2024, 1, 1), Date(2024, 1, 1)).GrandTotal() == LongMin as real / 100.0
  {
    assert MonthsBetween(Date(2024, 1, 1), Date(2024, 1, 1)) == 0;
  }

  /** 2.5 GB at 10.00: 25.00, 1.38 tax, 26.38 in all. */
  lemma DataExample()
    ensures Data("d", "n", 10.0, 2.5).SubTotal() == 25.0
    ensures Data("d", "n", 10.0, 2.5).Taxes() == 1.38
    ensures Data("d", "n", 10.0, 2.5).GrandTotal() == 26.38
  {
    assert (2.5 * 10.0 * 100.0 + 0.5).Floor == 2500;
    assert (25.0 * DataTaxRate * 100.0 + 0.5).Floor == 138;
  }

  /** 15 days of a 30.00 plan: 15.00, 0.98 tax, 15.98 in all. */
  lemma VoiceExample()
    ensures Voice("v", "n", 30.0, Some("555"), 15).SubTotal() == 15.0
    ensures Voice("v", "n", 30.0, Some("555"), 15).Taxes() == 0.98
    ensures Voice("v", "n", 30.0, Some("555"), 15).GrandTotal() == 15.98
  {
    assert (30.0 * (15.0 / VoicePeriodDays) * 100.0 + 0.5).Floor == 1500;
    assert (15.0 * VoiceTaxRate * 100.0 + 0.5).Floor == 98;
  }
}
