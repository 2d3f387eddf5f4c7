/** The CSV loaders. Each reads a file line by line: the first line is a header and
    is skipped, every other line is split at commas (Java `split(",")`, which drops
    trailing empty fields) and turned into an entry of a map. A file is given as
    its lines (`None` for a null path, which makes a loader return null); an empty
    file has no header, which the loaders catch and report as "No data in file",
    returning an empty map.

    Each loader is a method with the source's loop, proved against a specification
    that folds a per-line step over the data lines. A step goes on to the next line,
    stops the loop early (an index out of range that the loader catches), or fails
    with an exception that escapes the loader. */
module CsvDataLoader {
  import opened Wrappers
  import opened Dates
  import opened Addresses
  import opened Items
  import opened Sales
  import Persons
  import JavaString

  /** The exceptions that escape a loader. */
  datatype LoadError =
    /** A field index past the end of a short line, where the loader does not catch it. */
    | IndexOutOfBounds
    /** `Double.parseDouble` or `Integer.parseInt` rejected a field. */
    | NumberFormat
    /** `LocalDate.parse` rejected a field. */
    | DateTimeParse
    /** `RuntimeException("Not found")`: a person the line names is unknown. */
    | NotFound

  /** What a loader call ends in: null for a null path, a map, or an exception. */
  datatype Load<T> = NullPath | Loaded(value: T) | Threw(error: LoadError)

  /** The library parsers, given as functions: `None` is the exception they throw. */
  datatype Parsers = Parsers(parseDouble: string -> Option<real>,
                             parseInt: string -> Option<int>,
                             parseDate: string -> Option<Date>)

  // ---------------------------------------------------------------------------
  // Line-by-line loading, in general

  datatype Step<S> = Next(state: S) | Halt(state: S) | Fail(error: LoadError)

  /** The lines after the header; an empty file has none. */
  function DataLines(lines: seq<string>): (data: seq<string>)
    ensures |lines| > 0 ==> data == lines[1..]
    ensures |lines| == 0 ==> data == []
  {
    if |lines| == 0 then [] else lines[1..]
  }

  /** `step` applied to the lines in order, from `init`, until one halts or fails. */
  function FoldLines<S>(step: (S, string) -> Step<S>, init: S, lines: seq<string>): Step<S> {
    if |lines| == 0 then Next(init)
    else match FoldLines(step, init, lines[..|lines| - 1])
      case Next(s) => step(s, lines[|lines| - 1])
      case stopped => stopped
  }

  /** The result of a loader that runs `step` over the data lines of `file`. */
  function LoadWith<S>(step: (S, string) -> Step<S>, init: S, file: Option<seq<string>>): (r: Load<S>)
    ensures file.None? <==> r.NullPath?
  {
    match file
    case None => NullPath
    case Some(lines) =>
      match FoldLines(step, init, DataLines(lines))
      case Next(s) => Loaded(s)
      case Halt(s) => Loaded(s)
      case Fail(e) => Threw(e)
  }

  /** One more line is one more step, unless the loop has already stopped. */
  lemma FoldLinesStep<S>(step: (S, string) -> Step<S>, init: S, lines: seq<string>, i: nat)
    requires i < |lines|
    ensures FoldLines(step, init, lines[..i + 1]) ==
              match FoldLines(step, init, lines[..i])
              case Next(s) => step(s, lines[i])
              case stopped => stopped
  {
    assert lines[..i + 1][..i] == lines[..i];
  }

  /** The step from a state the loop is still running in. */
  lemma FoldLinesNext<S>(step: (S, string) -> Step<S>, init: S, lines: seq<string>, i: nat, s: S)
    requires i < |lines| && FoldLines(step, init, lines[..i]) == Next(s)
    ensures FoldLines(step, init, lines[..i + 1]) == step(s, lines[i])
  {
    FoldLinesStep(step, init, lines, i);
  }

  /** Once the loop stops, the later lines change nothing. */
  lemma {:induction false} FoldLinesStops<S>(step: (S, string) -> Step<S>, init: S, lines: seq<string>, i: nat)
    requires i <= |lines| && !FoldLines(step, init, lines[..i]).Next?
    ensures FoldLines(step, init, lines) == FoldLines(step, init, lines[..i])
    decreases |lines| - i
  {
    if i < |lines| {
      FoldLinesStep(step, init, lines, i);
      FoldLinesStops(step, init, lines, i + 1);
    } else {
      assert lines[..i] == lines;
    }
  }

  /** A property of the state that every step keeps holds of the loaded state. */
  lemma {:induction false} FoldLinesInvariant<S>(step: (S, string) -> Step<S>, init: S, lines: seq<string>, inv: S -> bool)
    requires inv(init)
    requires forall s, line :: inv(s) && !step(s, line).Fail? ==> inv(step(s, line).state)
    ensures !FoldLines(step, init, lines).Fail? ==> inv(FoldLines(step, init, lines).state)
    decreases |lines|
  {
    if |lines| > 0 {
      FoldLinesInvariant(step, init, lines[..|lines| - 1], inv);
    }
  }

  // ---------------------------------------------------------------------------
  // loadPersonData: uuid,firstName,lastName,street,city,state,zip[,email...]

  /** What one person line says. */
  datatype PersonRow = PersonRow(uuid: string, firstName: string, lastName: string,
                                 address: Address, emails: seq<string>)

  /** The row of a person line's fields: every field after the seventh is an email. */
  function PersonRowOf(t: seq<string>): PersonRow
    requires |t| >= 7
  {
    PersonRow(t[0], t[1], t[2], Address(t[3], t[4], t[5], t[6]), t[7..])
  }

  /** A person line needs seven fields; a later line with the same UUID replaces the person. */
  function PersonStep(m: map<string, PersonRow>, line: string): Step<map<string, PersonRow>> {
    var t := JavaString.Split(line);
    if |t| < 7 then Fail(IndexOutOfBounds)
    else Next(m[t[0] := PersonRowOf(t)])
  }

  /** The person object was built from the row. */
  predicate Holds(p: Persons.Person, row: PersonRow)
    reads p
  {
    p.uuid == row.uuid && p.lastName == Some(row.lastName) && p.firstName == Some(row.firstName)
    && p.address == Some(row.address) && p.emails == row.emails
  }

  method LoadPersonData(file: Option<seq<string>>) returns (r: Load<map<string, Persons.Person>>)
    ensures var spec := LoadWith(PersonStep, map[], file);
            (r.NullPath? <==> spec.NullPath?) && (r.Threw? <==> spec.Threw?) &&
            (r.Threw? ==> r.error == spec.error) &&
            (r.Loaded? ==>
               r.value.Keys == spec.value.Keys &&
               forall k :: k in r.value ==> Holds(r.value[k], spec.value[k]))
  {
    if file.None? {
      return NullPath;
    }
    var data := DataLines(file.value);
    var personMap: map<string, Persons.Person> := map[];
    ghost var rows: map<string, PersonRow> := map[];
    var i := 0;
    while i < |data|
      invariant 0 <= i <= |data|
      invariant FoldLines(PersonStep, map[], data[..i]) == Next(rows)
      invariant personMap.Keys == rows.Keys
      invariant forall k :: k in personMap ==> Holds(personMap[k], rows[k])
    {
      FoldLinesNext(PersonStep, map[], data, i, rows);
      var tokens := JavaString.Split(data[i]);
      if |tokens| < 7 {
        FoldLinesStops(PersonStep, map[], data, i + 1);
        return Threw(IndexOutOfBounds);
      }
      var person := PersonOfLine(tokens);
      personMap := personMap[tokens[0] := person];
      rows := rows[tokens[0] := PersonRowOf(tokens)];
      i := i + 1;
    }
    assert data[..i] == data;
    r := Loaded(personMap);
  }

  /** The body of the person loop: a new person from the first seven fields, then
      each further field added as an email. */
  method PersonOfLine(tokens: seq<string>) returns (person: Persons.Person)
    requires |tokens| >= 7
    ensures Holds(person, PersonRowOf(tokens))
  {
    var address := Address(tokens[3], tokens[4], tokens[5], tokens[6]);
    person := new Persons.Person(tokens[0], Some(tokens[2]), Some(tokens[1]), Some(address));
    if |tokens| > 7 {
      var j := 7;
      while j < |tokens|
        invariant 7 <= j <= |tokens|
        invariant person.emails == tokens[7..j]
      {
        person.AddEmail(tokens[j]);
        j := j + 1;
      }
    }
    assert person.emails == tokens[7..];
  }

  // ---------------------------------------------------------------------------
  // loadItemData: code,type,name,price

  /** An item line needs four fields and a number in the fourth; the type code picks
      the catalog item, and an unknown type code skips the line. */
  function ItemStep(p: Parsers, m: map<string, Item>, line: string): Step<map<string, Item>> {
    var t := JavaString.Split(line);
    if |t| < 4 then Fail(IndexOutOfBounds)
    else match p.parseDouble(t[3])
      case None => Fail(NumberFormat)
      case Some(price) =>
        if t[1] == "V" then Next(m[t[0] := CatalogVoice(t[0], t[2], price)])
        else if t[1] == "D" then Next(m[t[0] := CatalogData(t[0], t[2], price)])
        else if t[1] == "S" then Next(m[t[0] := CatalogService(t[0], t[2], price)])
        else if t[1] == "P" then Next(m[t[0] := CatalogProduct(t[0], t[2], price)])
        else Next(m)
  }

  function ItemStepWith(p: Parsers): (map<string, Item>, string) -> Step<map<string, Item>> {
    (m, line) => ItemStep(p, m, line)
  }

  method LoadItemData(file: Option<seq<string>>, p: Parsers) returns (r: Load<map<string, Item>>)
    ensures r == LoadWith(ItemStepWith(p), map[], file)
  {
    if file.None? {
      return NullPath;
    }
    var data := DataLines(file.value);
    var itemMap: map<string, Item> := map[];
    var i := 0;
    while i < |data|
      invariant 0 <= i <= |data|
      invariant FoldLines(ItemStepWith(p), map[], data[..i]) == Next(itemMap)
    {
      FoldLinesNext(ItemStepWith(p), map[], data, i, itemMap);
      var tokens := JavaString.Split(data[i]);
      if |tokens| < 4 {
        FoldLinesStops(ItemStepWith(p), map[], data, i + 1);
        return Threw(IndexOutOfBounds);
      }
      var code, itemType, name := tokens[0], tokens[1], tokens[2];
      var basePrice := p.parseDouble(tokens[3]);
      if basePrice.None? {
        FoldLinesStops(ItemStepWith(p), map[], data, i + 1);
        return Threw(NumberFormat);
      }
      if itemType == "V" {
        itemMap := itemMap[code := CatalogVoice(code, name, basePrice.value)];
      } else if itemType == "D" {
        itemMap := itemMap[code := CatalogData(code, name, basePrice.value)];
      } else if itemType == "S" {
        itemMap := itemMap[code := CatalogService(code, name, basePrice.value)];
      } else if itemType == "P" {
        itemMap := itemMap[code := CatalogProduct(code, name, basePrice.value)];
      }
      i := i + 1;
    }
    assert data[..i] == data;
    r := Loaded(itemMap);
  }

  /** A catalog item: what the three-argument constructors build. */
  predicate IsCatalogItem(i: Item) {
    || (i.Product?)
    || (i.Voice? && i.phoneNum.None? && i.numDays == 0)
    || (i.Data? && i.numGBs == 0.0)
    || (i.Service? && i.numHours == 0.0 && i.servicer == null)
  }

  /** The item map is keyed by item code and holds catalog items only. */
  predicate KeyedCatalog(m: map<string, Item>) {
    forall k :: k in m ==> m[k].code == k && IsCatalogItem(m[k])
  }

  // ---------------------------------------------------------------------------
  // loadSaleData: saleCode,storeCode,customerUuid,salespersonUuid,date

  /** `saleMap.containsValue(sale)`. */
  predicate ContainsValue(m: map<string, Sale>, sale: Sale) {
    exists k :: k in m && SaleEquals(m[k], sale)
  }

  /** `storeMap.get(code)`: null when the code is unknown. */
  function StoreOrNull(stores: map<string, Store>, code: string): (s: Store?)
    ensures code in stores ==> s == stores[code]
    ensures code !in stores ==> s == null
  {
    if code in stores then stores[code] else null
  }

  /** Only five-field lines are read. The date is parsed first; then both people
      must be known, and the sale is stored unless an equal sale already is. */
  function SaleStep(stores: map<string, Store>, persons: map<string, Persons.Person>, p: Parsers,
                    m: map<string, Sale>, line: string): Step<map<string, Sale>> {
    var t := JavaString.Split(line);
    if |t| != 5 then Next(m)
    else match p.parseDate(t[4])
      case None => Fail(DateTimeParse)
      case Some(date) =>
        if t[2] in persons && t[3] in persons then
          var sale := Sale(t[0], StoreOrNull(stores, t[1]), persons[t[2]], persons[t[3]], date, []);
          if ContainsValue(m, sale) then Next(m) else Next(m[t[0] := sale])
        else Fail(NotFound)
  }

  function SaleStepWith(stores: map<string, Store>, persons: map<string, Persons.Person>, p: Parsers)
    : (map<string, Sale>, string) -> Step<map<string, Sale>>
  {
    (m, line) => SaleStep(stores, persons, p, m, line)
  }

  method LoadSaleData(file: Option<seq<string>>, storeMap: map<string, Store>,
                      personMap: map<string, Persons.Person>, p: Parsers)
    returns (r: Load<map<string, Sale>>)
    ensures r == LoadWith(SaleStepWith(storeMap, personMap, p), map[], file)
  {
    if file.None? {
      return NullPath;
    }
    var data := DataLines(file.value);
    var saleMap: map<string, Sale> := map[];
    var i := 0;
    while i < |data|
      invariant 0 <= i <= |data|
      invariant FoldLines(SaleStepWith(storeMap, personMap, p), map[], data[..i]) == Next(saleMap)
    {
      FoldLinesNext(SaleStepWith(storeMap, personMap, p), map[], data, i, saleMap);
      var tokens := JavaString.Split(data[i]);
      if |tokens| == 5 {
        var saleCode, storeCode, customerUuid, salesPersonUuid := tokens[0], tokens[1], tokens[2], tokens[3];
        var date := p.parseDate(tokens[4]);
        if date.None? {
          FoldLinesStops(SaleStepWith(storeMap, personMap, p), map[], data, i + 1);
          return Threw(DateTimeParse);
        }
        if customerUuid in personMap && salesPersonUuid in personMap {
          var store := if storeCode in storeMap then storeMap[storeCode] else null;
          var sale := Sale(saleCode, store, personMap[customerUuid], personMap[salesPersonUuid], date.value, []);
          if !ContainsValue(saleMap, sale) {
            saleMap := saleMap[saleCode := sale];
          }
        } else {
          FoldLinesStops(SaleStepWith(storeMap, personMap, p), map[], data, i + 1);
          return Threw(NotFound);
        }
      }
      i := i + 1;
    }
    assert data[..i] == data;
    r := Loaded(saleMap);
  }

  /** What every loaded sale looks like: filed under its own code, with no items yet,
      its people from the person map and its store from the store map or null. */
  predicate WellFormedSales(m: map<string, Sale>, stores: map<string, Store>, persons: map<string, Persons.Person>) {
    forall k :: k in m ==>
      m[k].saleCode == k && m[k].items == [] &&
      m[k].customer in persons.Values && m[k].salesperson in persons.Values &&
      (m[k].store == null || m[k].store in stores.Values)
  }

  // ---------------------------------------------------------------------------
  // loadSalesItem: saleCode,itemCode[,...]; empty fields are dropped first

  /** The two maps the loader updates: the sales-item map it returns, and the sale
      map whose sales it adds items to. */
  datatype SaleItems = SaleItems(salesItems: map<string, Item>, sales: map<string, Sale>)

  /** The first of `items` (the item map's values, in its iteration order) with the code. */
  function FirstWithCode(items: seq<Item>, code: string): (r: Option<Item>)
    ensures r.Some? ==> r.value in items && r.value.code == code
    ensures r.None? <==> forall j :: 0 <= j < |items| ==> items[j].code != code
  {
    if |items| == 0 then None
    else if items[0].code == code then Some(items[0])
    else FirstWithCode(items[1..], code)
  }

  /** The fields of a line that are not empty. */
  function NonEmpty(fields: seq<string>): (r: seq<string>)
    ensures forall j :: 0 <= j < |r| ==> r[j] != "" && r[j] in fields
    ensures |r| <= |fields|
  {
    if |fields| == 0 then []
    else if fields[|fields| - 1] == "" then NonEmpty(fields[..|fields| - 1])
    else NonEmpty(fields[..|fields| - 1]) + [fields[|fields| - 1]]
  }

  /** The item a sale-item line makes from the catalog item `item`, or why the line
      stops the loop (`Halt`) or escapes (`Fail`); `None` is the null item. */
  function SaleLineItem(persons: map<string, Persons.Person>, p: Parsers, t: seq<string>, item: Item)
    : Step<Option<Item>>
    requires |t| >= 2
  {
    if item.IsProduct() && |t| == 2 then
      Next(Some(Purchase(item.code, item.name, item.basePrice)))
    else if item.IsProduct() && |t| == 4 then
      match p.parseDate(t[2])
      case None => Fail(DateTimeParse)
      case Some(start) =>
        match p.parseDate(t[3])
        case None => Fail(DateTimeParse)
        case Some(end) => Next(Some(Lease(item.code, item.name, item.basePrice, start, end)))
    else if item.Service? then
      if |t| < 4 then Halt(None)
      else if t[3] in persons then
        match p.parseDouble(t[2])
        case None => Fail(NumberFormat)
        case Some(hours) => Next(Some(Service(item.code, item.name, item.hourlyPrice, hours, persons[t[3]])))
      else Fail(NotFound)
    else if item.Data? then
      if |t| < 3 then Halt(None)
      else match p.parseDouble(t[2])
        case None => Fail(NumberFormat)
        case Some(gbs) => Next(Some(Data(item.code, item.name, item.pricePerGB, gbs)))
    else if item.Voice? then
      if |t| < 4 then Halt(None)
      else match p.parseInt(t[3])
        case None => Fail(NumberFormat)
        case Some(days) => Next(Some(Voice(item.code, item.name, item.pricePerPeriod, Some(t[2]), days)))
    else Next(None)
  }

  /** A line with no field stops the loop (its first field is out of range); a line
      with the sale code alone does nothing. Otherwise the item is looked up by code
      and made into a sale item, which is filed under the sale code and appended to
      the sale when the sale exists; an unknown code appends a null item. */
  function SaleItemStep(items: seq<Item>, persons: map<string, Persons.Person>, p: Parsers,
                        st: SaleItems, line: string): Step<SaleItems> {
    var t := NonEmpty(JavaString.Split(line));
    if |t| == 0 then Halt(st)
    else if |t| == 1 then Next(st)
    else
      var made := match FirstWithCode(items, t[1])
        case None => Next(None)
        case Some(item) => SaleLineItem(persons, p, t, item);
      match made
      case Fail(e) => Fail(e)
      case Halt(_) => Halt(st)
      case Next(a) =>
        var salesItems := if a.Some? then st.salesItems[t[0] := a.value] else st.salesItems;
        var sales := if t[0] in st.sales then st.sales[t[0] := st.sales[t[0]].AddSale(a)] else st.sales;
        Next(SaleItems(salesItems, sales))
  }

  function SaleItemStepWith(items: seq<Item>, persons: map<string, Persons.Person>, p: Parsers)
    : (SaleItems, string) -> Step<SaleItems>
  {
    (st, line) => SaleItemStep(items, persons, p, st, line)
  }

  /** `loadSalesItem(path, itemMap, saleMap, personMap)`: `itemValues` is
      `itemMap.values()` in the map's iteration order. The result holds the returned
      sales-item map and `saleMap` with the items added to its sales. */
  method LoadSalesItem(file: Option<seq<string>>, itemValues: seq<Item>, saleMap: map<string, Sale>,
                       personMap: map<string, Persons.Person>, p: Parsers)
    returns (r: Load<SaleItems>)
    ensures r == LoadWith(SaleItemStepWith(itemValues, personMap, p), SaleItems(map[], saleMap), file)
  {
    if file.None? {
      return NullPath;
    }
    ghost var step := SaleItemStepWith(itemValues, personMap, p);
    ghost var init := SaleItems(map[], saleMap);
    var data := DataLines(file.value);
    var st := SaleItems(map[], saleMap);
    var i := 0;
    while i < |data|
      invariant 0 <= i <= |data|
      invariant FoldLines(step, init, data[..i]) == Next(st)
    {
      FoldLinesNext(step, init, data, i, st);
      var next := SaleItemLine(itemValues, personMap, p, st, data[i]);
      match next
      case Fail(e) =>
        FoldLinesStops(step, init, data, i + 1);
        return Threw(e);
      case Halt(s) =>
        FoldLinesStops(step, init, data, i + 1);
        return Loaded(s);
      case Next(s) =>
        st := s;
      i := i + 1;
    }
    assert data[..i] == data;
    r := Loaded(st);
  }

  /** The body of the loop for one line: the sale item the line makes, put into the
      sales-item map and added to the sale with the line's code, if there is one. */
  method SaleItemLine(itemValues: seq<Item>, personMap: map<string, Persons.Person>, p: Parsers,
                      st: SaleItems, line: string)
    returns (next: Step<SaleItems>)
    ensures next == SaleItemStep(itemValues, personMap, p, st, line)
  {
    var tokens := NonEmpty(JavaString.Split(line));
    if |tokens| == 0 {
      return Halt(st);
    }
    var saleCode := tokens[0];
    if |tokens| == 1 {
      return Next(st);
    }
    var found := FindItem(itemValues, tokens[1]);
    var made: Step<Option<Item>> := Next(None);
    if found.Some? {
      made := SaleLineItem(personMap, p, tokens, found.value);
    }
    match made
    case Fail(e) =>
      next := Fail(e);
    case Halt(_) =>
      next := Halt(st);
    case Next(a) =>
      var salesItemMap := st.salesItems;
      var sales := st.sales;
      if a.Some? {
        salesItemMap := salesItemMap[saleCode := a.value];
      }
      if saleCode in sales {
        sales := sales[saleCode := sales[saleCode].AddSale(a)];
      }
      next := Next(SaleItems(salesItemMap, sales));
  }

  /** The search of the item map's values: the first item with the code, if any. */
  method FindItem(itemValues: seq<Item>, itemCode: string) returns (found: Option<Item>)
    ensures found == FirstWithCode(itemValues, itemCode)
  {
    var j := 0;
    while j < |itemValues| && itemValues[j].code != itemCode
      invariant 0 <= j <= |itemValues|
      invariant forall j' :: 0 <= j' < j ==> itemValues[j'].code != itemCode
    {
      j := j + 1;
    }
    if j < |itemValues| {
      FirstWithCodeAt(itemValues, itemCode, j);
      found := Some(itemValues[j]);
    } else {
      found := None;
    }
  }

  lemma {:induction false} FirstWithCodeAt(items: seq<Item>, code: string, j: nat)
    requires j < |items| && items[j].code == code
    requires forall j' :: 0 <= j' < j ==> items[j'].code != code
    ensures FirstWithCode(items, code) == Some(items[j])
  {
    if j > 0 {
      FirstWithCodeAt(items[1..], code, j - 1);
    }
  }

  // ---------------------------------------------------------------------------
  // loadStoreData: storeCode,managerUuid,street,city,state,zip

  /** What one store line says. */
  datatype StoreRow = StoreRow(storeCode: string, managerUuid: string, address: Address)

  function StoreRowOf(t: seq<string>): StoreRow
    requires |t| == 6
  {
    StoreRow(t[0], t[1], Address(t[2], t[3], t[4], t[5]))
  }

  /** Only six-field lines are read; a later line with the same code replaces the store. */
  function StoreStep(m: map<string, StoreRow>, line: string): Step<map<string, StoreRow>> {
    var t := JavaString.Split(line);
    if |t| != 6 then Next(m)
    else Next(m[t[0] := StoreRowOf(t)])
  }

  /** The store object was built from the row: its manager is the known person, or a
      placeholder with the UUID and nothing else. */
  predicate StoreHolds(s: Store, row: StoreRow, persons: map<string, Persons.Person>)
    reads s, s.manager
  {
    s.storeCode == row.storeCode && s.address == row.address && s.sales == [] &&
    (row.managerUuid in persons ==> s.manager == persons[row.managerUuid]) &&
    (row.managerUuid !in persons ==>
       s.manager.uuid == row.managerUuid && s.manager.lastName.None? &&
       s.manager.firstName.None? && s.manager.address.None? && s.manager.emails == [])
  }

  method LoadStoreData(file: Option<seq<string>>, personMap: map<string, Persons.Person>)
    returns (r: Load<map<string, Store>>)
    ensures var spec := LoadWith(StoreStep, map[], file);
            (r.NullPath? <==> spec.NullPath?) && !r.Threw? && !spec.Threw? &&
            (r.Loaded? ==>
               r.value.Keys == spec.value.Keys &&
               forall k :: k in r.value ==> StoreHolds(r.value[k], spec.value[k], personMap))
  {
    if file.None? {
      return NullPath;
    }
    var data := DataLines(file.value);
    var storeMap: map<string, Store> := map[];
    ghost var rows: map<string, StoreRow> := map[];
    var i := 0;
    while i < |data|
      invariant 0 <= i <= |data|
      invariant FoldLines(StoreStep, map[], data[..i]) == Next(rows)
      invariant storeMap.Keys == rows.Keys
      invariant forall k :: k in storeMap ==> StoreHolds(storeMap[k], rows[k], personMap)
    {
      FoldLinesNext(StoreStep, map[], data, i, rows);
      var tokens := JavaString.Split(data[i]);
      if |tokens| == 6 {
        var store := StoreOfLine(tokens, personMap);
        storeMap := storeMap[tokens[0] := store];
        rows := rows[tokens[0] := StoreRowOf(tokens)];
      }
      i := i + 1;
    }
    assert data[..i] == data;
    r := Loaded(storeMap);
  }

  /** The body of the store loop for a six-field line: the manager is looked up by
      UUID, and a placeholder person stands in for an unknown one. */
  method StoreOfLine(tokens: seq<string>, personMap: map<string, Persons.Person>) returns (store: Store)
    requires |tokens| == 6
    ensures StoreHolds(store, StoreRowOf(tokens), personMap)
  {
    var storeCode, managerUuid := tokens[0], tokens[1];
    var address := Address(tokens[2], tokens[3], tokens[4], tokens[5]);
    if managerUuid in personMap {
      store := new Store(storeCode, personMap[managerUuid], address);
    } else {
      var manager := new Persons.Person(managerUuid, None, None, None);
      store := new Store(storeCode, manager, address);
    }
  }

  // ---------------------------------------------------------------------------
  // What the loaded maps look like

  predicate KeyedByUuid(m: map<string, PersonRow>) {
    forall k :: k in m ==> m[k].uuid == k
  }

  /** Every loaded person is filed under its own UUID. */
  lemma PersonsKeyedByUuid(file: Option<seq<string>>)
    ensures LoadWith(PersonStep, map[], file).Loaded? ==> KeyedByUuid(LoadWith(PersonStep, map[], file).value)
  {
    if file.Some? {
      FoldLinesInvariant(PersonStep, map[], DataLines(file.value), KeyedByUuid);
    }
  }

  predicate KeyedByStoreCode(m: map<string, StoreRow>) {
    forall k :: k in m ==> m[k].storeCode == k
  }

  /** Every loaded store is filed under its own code. */
  lemma StoresKeyedByCode(file: Option<seq<string>>)
    ensures LoadWith(StoreStep, map[], file).Loaded? ==> KeyedByStoreCode(LoadWith(StoreStep, map[], file).value)
  {
    if file.Some? {
      FoldLinesInvariant(StoreStep, map[], DataLines(file.value), KeyedByStoreCode);
    }
  }

  /** Every loaded catalog item is filed under its own code, and is a catalog item. */
  lemma ItemsKeyedCatalog(file: Option<seq<string>>, p: Parsers)
    ensures var r := LoadWith(ItemStepWith(p), map[], file);
            r.Loaded? ==> KeyedCatalog(r.value)
  {
    if file.Some? {
      FoldLinesInvariant(ItemStepWith(p), map[], DataLines(file.value), KeyedCatalog);
    }
  }

  /** Every loaded sale is filed under its own code, has no items, and refers to the
      loaded people and stores. */
  lemma SalesWellFormed(file: Option<seq<string>>, stores: map<string, Store>,
                        persons: map<string, Persons.Person>, p: Parsers)
    ensures var r := LoadWith(SaleStepWith(stores, persons, p), map[], file);
            r.Loaded? ==> WellFormedSales(r.value, stores, persons)
  {
    if file.Some? {
      FoldLinesInvariant(SaleStepWith(stores, persons, p), map[], DataLines(file.value),
                         m => WellFormedSales(m, stores, persons));
    }
  }

  /** A sale line whose customer or salesperson is unknown aborts the load. */
  lemma UnknownPersonAborts(stores: map<string, Store>, persons: map<string, Persons.Person>,
                            p: Parsers, m: map<string, Sale>, line: string)
    requires var t := JavaString.Split(line);
             |t| == 5 && p.parseDate(t[4]).Some? && (t[2] !in persons || t[3] !in persons)
    ensures SaleStep(stores, persons, p, m, line) == Fail(NotFound)
    ensures forall lines :: FoldLines(SaleStepWith(stores, persons, p), m, [line] + lines) == Fail(NotFound)
  {
    forall lines
      ensures FoldLines(SaleStepWith(stores, persons, p), m, [line] + lines) == Fail(NotFound)
    {
      var all := [line] + lines;
      assert all[..1] == [line];
      assert FoldLines(SaleStepWith(stores, persons, p), m, all[..0]) == Next(m) by {
        assert all[..0] == [];
      }
      FoldLinesStep(SaleStepWith(stores, persons, p), m, all, 0);
      FoldLinesStops(SaleStepWith(stores, persons, p), m, all, 1);
    }
  }

  /** A sale-item line for a service whose servicer is unknown aborts the load. */
  lemma UnknownServicerAborts(items: seq<Item>, persons: map<string, Persons.Person>, p: Parsers,
                              st: SaleItems, line: string)
    requires var t := NonEmpty(JavaString.Split(line));
             |t| >= 4 && FirstWithCode(items, t[1]).Some? && FirstWithCode(items, t[1]).value.Service? &&
             t[3] !in persons
    ensures SaleItemStep(items, persons, p, st, line) == Fail(NotFound)
    ensures forall lines :: FoldLines(SaleItemStepWith(items, persons, p), st, [line] + lines) == Fail(NotFound)
  {
    forall lines
      ensures FoldLines(SaleItemStepWith(items, persons, p), st, [line] + lines) == Fail(NotFound)
    {
      var all := [line] + lines;
      assert all[..1] == [line];
      assert FoldLines(SaleItemStepWith(items, persons, p), st, all[..0]) == Next(st) by {
        assert all[..0] == [];
      }
      FoldLinesStep(SaleItemStepWith(items, persons, p), st, all, 0);
      FoldLinesStops(SaleItemStepWith(items, persons, p), st, all, 1);
    }
  }

  /** A sale equal to one already loaded does not replace it. */
  lemma DuplicateSaleIgnored(stores: map<string, Store>, persons: map<string, Persons.Person>,
                             p: Parsers, m: map<string, Sale>, line: string, k: string)
    requires var t := JavaString.Split(line);
             |t| == 5 && p.parseDate(t[4]).Some? && t[2] in persons && t[3] in persons &&
             k in m && m[k].saleCode == t[0] && m[k].date == p.parseDate(t[4]).value && m[k].items == []
    ensures SaleStep(stores, persons, p, m, line) == Next(m)
  {
  }

  /** The sale map keeps its sales; each only gains items at the end, and keeps its
      code, store, people and date. */
  ghost predicate ItemsAppended(before: map<string, Sale>, after: map<string, Sale>) {
    after.Keys == before.Keys &&
    forall k :: k in before ==>
      after[k].saleCode == before[k].saleCode && after[k].store == before[k].store &&
      after[k].customer == before[k].customer && after[k].salesperson == before[k].salesperson &&
      after[k].date == before[k].date &&
      |before[k].items| <= |after[k].items| && after[k].items[..|before[k].items|] == before[k].items
  }

  /** Every sales item is made from a catalog item with the same code. */
  ghost predicate FromCatalog(salesItems: map<string, Item>, items: seq<Item>) {
    forall k :: k in salesItems ==> exists c :: c in items && c.code == salesItems[k].code
  }

  lemma SaleLineItemCode(persons: map<string, Persons.Person>, p: Parsers, t: seq<string>, item: Item)
    requires |t| >= 2
    ensures var made := SaleLineItem(persons, p, t, item);
            made.Next? && made.state.Some? ==> made.state.value.code == item.code
  {
  }

  /** Appending an item to one sale, if the code names one, keeps the other sales and
      the earlier items. */
  lemma AppendKeeps(saleMap: map<string, Sale>, sales: map<string, Sale>, code: string, a: Option<Item>)
    requires ItemsAppended(saleMap, sales)
    ensures ItemsAppended(saleMap, if code in sales then sales[code := sales[code].AddSale(a)] else sales)
  {
    if code in sales {
      var after := sales[code := sales[code].AddSale(a)];
      forall k | k in saleMap
        ensures |saleMap[k].items| <= |after[k].items|
        ensures after[k].items[..|saleMap[k].items|] == saleMap[k].items
      {
        if k == code {
          var old_ := sales[k].items;
          assert after[k].items[..|old_|] == old_;
          assert after[k].items[..|saleMap[k].items|] == old_[..|saleMap[k].items|];
        }
      }
    }
  }

  lemma SaleItemStepKeeps(items: seq<Item>, persons: map<string, Persons.Person>, p: Parsers,
                          saleMap: map<string, Sale>, st: SaleItems, line: string)
    requires ItemsAppended(saleMap, st.sales) && FromCatalog(st.salesItems, items)
    ensures var r := SaleItemStep(items, persons, p, st, line);
            !r.Fail? ==> ItemsAppended(saleMap, r.state.sales) && FromCatalog(r.state.salesItems, items)
  {
    var t := NonEmpty(JavaString.Split(line));
    if |t| >= 2 {
      var found := FirstWithCode(items, t[1]);
      var made := match found
        case None => Next(None)
        case Some(item) => SaleLineItem(persons, p, t, item);
      if made.Next? {
        var a := made.state;
        AppendKeeps(saleMap, st.sales, t[0], a);
        if a.Some? {
          SaleLineItemCode(persons, p, t, found.value);
          var c := found.value;
          assert c in items && c.code == a.value.code;
        }
      }
    }
  }

  /** Loading sale items leaves the sale map's sales in place, only appending items
      to them, and every sales item has the code of a catalog item. */
  lemma SaleItemsLoadKeeps(file: Option<seq<string>>, items: seq<Item>, saleMap: map<string, Sale>,
                           persons: map<string, Persons.Person>, p: Parsers)
    ensures var r := LoadWith(SaleItemStepWith(items, persons, p), SaleItems(map[], saleMap), file);
            r.Loaded? ==> ItemsAppended(saleMap, r.value.sales) && FromCatalog(r.value.salesItems, items)
  {
    if file.Some? {
      forall st: SaleItems, line: string |
          ItemsAppended(saleMap, st.sales) && FromCatalog(st.salesItems, items)
        ensures var r := SaleItemStepWith(items, persons, p)(st, line);
                !r.Fail? ==> ItemsAppended(saleMap, r.state.sales) && FromCatalog(r.state.salesItems, items)
      {
        SaleItemStepKeeps(items, persons, p, saleMap, st, line);
      }
      assert ItemsAppended(saleMap, saleMap) by {
        forall k | k in saleMap ensures saleMap[k].items[..|saleMap[k].items|] == saleMap[k].items {
        }
      }
      FoldLinesInvariant(SaleItemStepWith(items, persons, p), SaleItems(map[], saleMap), DataLines(file.value),
                         (st: SaleItems) => ItemsAppended(saleMap, st.sales) && FromCatalog(st.salesItems, items));
    }
  }

  /** A line whose item code names no catalog item appends a null item to its sale
      and files nothing. */
  lemma UnknownItemAppendsNull(items: seq<Item>, persons: map<string, Persons.Person>, p: Parsers,
                               st: SaleItems, line: string)
    requires var t := NonEmpty(JavaString.Split(line));
             |t| >= 2 && t[0] in st.sales && forall j :: 0 <= j < |items| ==> items[j].code != t[1]
    ensures var t := NonEmpty(JavaString.Split(line));
            var r := SaleItemStep(items, persons, p, st, line);
            r.Next? && r.state.salesItems == st.salesItems &&
            r.state.sales == st.sales[t[0] := st.sales[t[0]].(items := st.sales[t[0]].items + [None])]
  {
  }
}
