/** The catalogue tools: the make/model pairs offered to the fuzzy normaliser, and
    `search_catalog`, which turns a CatalogQuery into the conjunctive WHERE clause of a
    SELECT over `cars`, ordered by price and limited. The database is modelled by the
    rows of the table and by Select, the meaning of the statement that is sent. */
module Catalog {

  import opened Common
  import opened Text
  import opened Sorting
  import opened Models

  /** The search arguments; every filter is optional. */
  datatype CatalogQuery = CatalogQuery(
    make: Option<string>,
    model: Option<string>,
    yearMin: Option<int>,
    yearMax: Option<int>,
    priceMin: Option<real>,
    priceMax: Option<real>,
    city: Option<string>,
    transmission: Option<string>,
    limit: int)

  /** The limits the tool's argument schema admits. */
  predicate ValidLimit(q: CatalogQuery)
  {
    1 <= q.limit <= 10
  }

  // ---------------------------------------------------------------------------
  // known_make_model_pairs

  /** One choice for the normaliser: `f"{make} {model}".strip().lower()`. */
  function FormatPair(make: string, model: string): string
  {
    Lower(Trim(make + " " + model))
  }

  /** The pairs as formatted from the rows of `SELECT DISTINCT make, model`. */
  function KnownPairs(rows: seq<(string, string)>): seq<string>
  {
    seq(|rows|, i requires 0 <= i < |rows| => FormatPair(rows[i].0, rows[i].1))
  }

  /** A formatted pair is stripped and lower-case; for a stripped, non-empty make and
      model it is the two lowered around one space. */
  lemma FormatPairShape(make: string, model: string)
    ensures Stripped(FormatPair(make, model)) && NoUpper(FormatPair(make, model))
    ensures Stripped(make) && Stripped(model) && make != [] && model != [] ==>
      FormatPair(make, model) == Lower(make) + " " + Lower(model)
  {
    FormatPairClean(make, model);
    if Stripped(make) && Stripped(model) && make != [] && model != [] {
      FormatPairJoined(make, model);
    }
  }

  /** A formatted pair is stripped and lower-case. */
  lemma FormatPairClean(make: string, model: string)
    ensures Stripped(FormatPair(make, model)) && NoUpper(FormatPair(make, model))
  {
    TrimSpec(make + " " + model);
    LowerSpec(Trim(make + " " + model));
  }

  /** For a stripped, non-empty make and model, the pair is the two lowered around one
      space. */
  lemma FormatPairJoined(make: string, model: string)
    requires Stripped(make) && Stripped(model) && make != [] && model != []
    ensures FormatPair(make, model) == Lower(make) + " " + Lower(model)
  {
    JoinedTrim(make, model, ' ');
    LowerAppend(make + " ", model);
    LowerAppend(make, " ");
    assert Lower(" ") == " ";
  }

  /** One pair per row, each of that shape. */
  lemma KnownPairsShape(rows: seq<(string, string)>)
    ensures |KnownPairs(rows)| == |rows|
    ensures forall i :: 0 <= i < |rows| ==> Stripped(KnownPairs(rows)[i]) && NoUpper(KnownPairs(rows)[i])
    ensures forall i :: 0 <= i < |rows| && Stripped(rows[i].0) && Stripped(rows[i].1) && rows[i].0 != [] && rows[i].1 != [] ==>
      KnownPairs(rows)[i] == Lower(rows[i].0) + " " + Lower(rows[i].1)
  {
    forall i | 0 <= i < |rows|
      ensures Stripped(KnownPairs(rows)[i]) && NoUpper(KnownPairs(rows)[i])
      ensures Stripped(rows[i].0) && Stripped(rows[i].1) && rows[i].0 != [] && rows[i].1 != [] ==>
        KnownPairs(rows)[i] == Lower(rows[i].0) + " " + Lower(rows[i].1)
    {
      FormatPairShape(rows[i].0, rows[i].1);
    }
  }

  /** What `SELECT DISTINCT make, model FROM cars` returns: each pair of the table
      exactly once, in some order. */
  ghost predicate DistinctPairsOf(rows: seq<(string, string)>, table: seq<Car>)
  {
    (forall i, j :: 0 <= i < j < |rows| ==> rows[i] != rows[j]) &&
    (forall p :: p in rows <==> exists c :: c in table && p == (c.rec.make, c.rec.model))
  }

  /** A choice formatted from some car of the table. */
  ghost predicate FromCatalog(pair: string, table: seq<Car>)
  {
    exists c :: c in table && pair == FormatPair(c.rec.make, c.rec.model)
  }

  /** The normaliser's choices are exactly the catalogue's cars, formatted. */
  lemma KnownPairsCover(rows: seq<(string, string)>, table: seq<Car>)
    requires DistinctPairsOf(rows, table)
    ensures forall c :: c in table ==> FormatPair(c.rec.make, c.rec.model) in KnownPairs(rows)
    ensures forall k :: 0 <= k < |rows| ==> FromCatalog(KnownPairs(rows)[k], table)
  {
    forall c | c in table ensures FormatPair(c.rec.make, c.rec.model) in KnownPairs(rows) {
      var p := (c.rec.make, c.rec.model);
      assert p in rows;
      var i :| 0 <= i < |rows| && rows[i] == p;
      assert KnownPairs(rows)[i] == FormatPair(c.rec.make, c.rec.model);
    }
    forall k | 0 <= k < |rows| ensures FromCatalog(KnownPairs(rows)[k], table) {
      assert rows[k] in rows;
      var c :| c in table && rows[k] == (c.rec.make, c.rec.model);
      assert KnownPairs(rows)[k] == FormatPair(c.rec.make, c.rec.model);
    }
  }

  // ---------------------------------------------------------------------------
  // The WHERE clause

  datatype Column = MakeColumn | ModelColumn | CityColumn | TransmissionColumn

  /** One condition of the WHERE clause, as the SQLAlchemy column expression. */
  datatype Condition =
    | ILike(column: Column, pattern: string)
    | YearAtLeast(minYear: int)
    | YearAtMost(maxYear: int)
    | PriceAtLeast(minPrice: real)
    | PriceAtMost(maxPrice: real)

  /** A text column of a row; `transmission` is nullable. */
  function ColumnValue(c: CarRecord, column: Column): Option<string>
  {
    match column
    case MakeColumn => Some(c.make)
    case ModelColumn => Some(c.model)
    case CityColumn => Some(c.city)
    case TransmissionColumn => c.transmission
  }

  /** `value ILIKE pattern`, without wildcards: equal up to case. */
  predicate SameText(value: string, pattern: string)
  {
    Lower(value) == Lower(pattern)
  }

  /** A row satisfies a condition; a NULL column satisfies no ILIKE. */
  predicate Holds(cond: Condition, c: CarRecord)
  {
    match cond
    case ILike(column, pattern) => ColumnValue(c, column).Some? && SameText(ColumnValue(c, column).value, pattern)
    case YearAtLeast(y) => c.year >= y
    case YearAtMost(y) => c.year <= y
    case PriceAtLeast(p) => c.priceMxn >= p
    case PriceAtMost(p) => c.priceMxn <= p
  }

  /** `and_(*filters)`; with no filters every row qualifies. */
  predicate AllHold(filters: seq<Condition>, c: CarRecord)
  {
    forall i :: 0 <= i < |filters| ==> Holds(filters[i], c)
  }

  lemma AllHoldSnoc(filters: seq<Condition>, cond: Condition)
    ensures forall c :: AllHold(filters + [cond], c) <==> AllHold(filters, c) && Holds(cond, c)
  {
    forall c ensures AllHold(filters + [cond], c) <==> AllHold(filters, c) && Holds(cond, c) {
      if AllHold(filters, c) && Holds(cond, c) {
        forall i | 0 <= i < |filters + [cond]| ensures Holds((filters + [cond])[i], c) {
          if i < |filters| { assert (filters + [cond])[i] == filters[i]; }
        }
      }
      if AllHold(filters + [cond], c) {
        forall i | 0 <= i < |filters| ensures Holds(filters[i], c) {
          assert (filters + [cond])[i] == filters[i];
        }
        assert (filters + [cond])[|filters|] == cond;
      }
    }
  }

  // What the query asks of one car, criterion by criterion. A text criterion applies
  // only when it is given and non-empty; a numeric one whenever it is given, 0 included.

  predicate MakeOk(q: CatalogQuery, c: CarRecord)
  {
    Truthy(q.make) ==> SameText(c.make, q.make.value)
  }

  predicate ModelOk(q: CatalogQuery, c: CarRecord)
  {
    Truthy(q.model) ==> SameText(c.model, q.model.value)
  }

  predicate CityOk(q: CatalogQuery, c: CarRecord)
  {
    Truthy(q.city) ==> SameText(c.city, q.city.value)
  }

  predicate TransmissionOk(q: CatalogQuery, c: CarRecord)
  {
    Truthy(q.transmission) ==> c.transmission.Some? && SameText(c.transmission.value, q.transmission.value)
  }

  predicate YearMinOk(q: CatalogQuery, c: CarRecord)
  {
    q.yearMin.Some? ==> c.year >= q.yearMin.value
  }

  predicate YearMaxOk(q: CatalogQuery, c: CarRecord)
  {
    q.yearMax.Some? ==> c.year <= q.yearMax.value
  }

  predicate PriceMinOk(q: CatalogQuery, c: CarRecord)
  {
    q.priceMin.Some? ==> c.priceMxn >= q.priceMin.value
  }

  predicate PriceMaxOk(q: CatalogQuery, c: CarRecord)
  {
    q.priceMax.Some? ==> c.priceMxn <= q.priceMax.value
  }

  /** A car answers the query when it meets every criterion. */
  predicate Matches(q: CatalogQuery, c: CarRecord)
  {
    MakeOk(q, c) && ModelOk(q, c) && CityOk(q, c) && TransmissionOk(q, c) &&
    YearMinOk(q, c) && YearMaxOk(q, c) && PriceMinOk(q, c) && PriceMaxOk(q, c)
  }

  /** No criterion is given: the statement has no WHERE clause. */
  predicate Unfiltered(q: CatalogQuery)
  {
    !Truthy(q.make) && !Truthy(q.model) && !Truthy(q.city) && !Truthy(q.transmission) &&
    q.yearMin.None? && q.yearMax.None? && q.priceMin.None? && q.priceMax.None?
  }

  /** The condition each criterion contributes, in the order search_catalog checks
      them: none when the criterion is not asked. */
  function MakeCondition(q: CatalogQuery): seq<Condition>
  {
    if Truthy(q.make) then [ILike(MakeColumn, q.make.value)] else []
  }

  function ModelCondition(q: CatalogQuery): seq<Condition>
  {
    if Truthy(q.model) then [ILike(ModelColumn, q.model.value)] else []
  }

  function CityCondition(q: CatalogQuery): seq<Condition>
  {
    if Truthy(q.city) then [ILike(CityColumn, q.city.value)] else []
  }

  function TransmissionCondition(q: CatalogQuery): seq<Condition>
  {
    if Truthy(q.transmission) then [ILike(TransmissionColumn, q.transmission.value)] else []
  }

  function YearMinCondition(q: CatalogQuery): seq<Condition>
  {
    if q.yearMin.Some? then [YearAtLeast(q.yearMin.value)] else []
  }

  function YearMaxCondition(q: CatalogQuery): seq<Condition>
  {
    if q.yearMax.Some? then [YearAtMost(q.yearMax.value)] else []
  }

  function PriceMinCondition(q: CatalogQuery): seq<Condition>
  {
    if q.priceMin.Some? then [PriceAtLeast(q.priceMin.value)] else []
  }

  function PriceMaxCondition(q: CatalogQuery): seq<Condition>
  {
    if q.priceMax.Some? then [PriceAtMost(q.priceMax.value)] else []
  }

  lemma AllHoldAppend(a: seq<Condition>, b: seq<Condition>, c: CarRecord)
    ensures AllHold(a + b, c) <==> AllHold(a, c) && AllHold(b, c)
  {
    if AllHold(a, c) && AllHold(b, c) {
      forall i | 0 <= i < |a + b| ensures Holds((a + b)[i], c) {
        if i < |a| { assert (a + b)[i] == a[i]; } else { assert (a + b)[i] == b[i - |a|]; }
      }
    }
    if AllHold(a + b, c) {
      forall i | 0 <= i < |a| ensures Holds(a[i], c) { assert (a + b)[i] == a[i]; }
      forall i | 0 <= i < |b| ensures Holds(b[i], c) { assert (a + b)[|a| + i] == b[i]; }
    }
  }

  /** Each criterion's condition holds exactly when the car meets that criterion. */
  lemma CriterionMeaning(q: CatalogQuery, c: CarRecord)
    ensures AllHold(MakeCondition(q), c) <==> MakeOk(q, c)
    ensures AllHold(ModelCondition(q), c) <==> ModelOk(q, c)
    ensures AllHold(CityCondition(q), c) <==> CityOk(q, c)
    ensures AllHold(TransmissionCondition(q), c) <==> TransmissionOk(q, c)
    ensures AllHold(YearMinCondition(q), c) <==> YearMinOk(q, c)
    ensures AllHold(YearMaxCondition(q), c) <==> YearMaxOk(q, c)
    ensures AllHold(PriceMinCondition(q), c) <==> PriceMinOk(q, c)
    ensures AllHold(PriceMaxCondition(q), c) <==> PriceMaxOk(q, c)
  {
    forall cond: Condition ensures AllHold([cond], c) <==> Holds(cond, c) {
      assert [cond][0] == cond;
    }
  }

  /** The text conditions hold exactly when the car meets the text criteria. */
  lemma TextConditionsMeaning(q: CatalogQuery, c: CarRecord)
    ensures AllHold(MakeCondition(q) + ModelCondition(q) + CityCondition(q) + TransmissionCondition(q), c) <==>
      MakeOk(q, c) && ModelOk(q, c) && CityOk(q, c) && TransmissionOk(q, c)
  {
    CriterionMeaning(q, c);
    AllHoldAppend(MakeCondition(q), ModelCondition(q), c);
    AllHoldAppend(MakeCondition(q) + ModelCondition(q), CityCondition(q), c);
    AllHoldAppend(MakeCondition(q) + ModelCondition(q) + CityCondition(q), TransmissionCondition(q), c);
  }

  /** All eight conditions hold exactly when the car answers the query. */
  lemma ConditionsMeaning(q: CatalogQuery, filters: seq<Condition>, c: CarRecord)
    requires filters == MakeCondition(q) + ModelCondition(q) + CityCondition(q) + TransmissionCondition(q) +
      YearMinCondition(q) + YearMaxCondition(q) + PriceMinCondition(q) + PriceMaxCondition(q)
    ensures AllHold(filters, c) <==> Matches(q, c)
  {
    var text := MakeCondition(q) + ModelCondition(q) + CityCondition(q) + TransmissionCondition(q);
    TextConditionsMeaning(q, c);
    CriterionMeaning(q, c);
    AllHoldAppend(text, YearMinCondition(q), c);
    AllHoldAppend(text + YearMinCondition(q), YearMaxCondition(q), c);
    AllHoldAppend(text + YearMinCondition(q) + YearMaxCondition(q), PriceMinCondition(q), c);
    AllHoldAppend(text + YearMinCondition(q) + YearMaxCondition(q) + PriceMinCondition(q), PriceMaxCondition(q), c);
  }

  /** Each criterion adds at most one condition, and none are added exactly when
      nothing is asked. */
  lemma ConditionsCount(q: CatalogQuery, filters: seq<Condition>)
    requires filters == MakeCondition(q) + ModelCondition(q) + CityCondition(q) + TransmissionCondition(q) +
      YearMinCondition(q) + YearMaxCondition(q) + PriceMinCondition(q) + PriceMaxCondition(q)
    ensures |filters| <= 8
    ensures filters == [] <==> Unfiltered(q)
  {
    assert |filters| == |MakeCondition(q)| + |ModelCondition(q)| + |CityCondition(q)| + |TransmissionCondition(q)| +
      |YearMinCondition(q)| + |YearMaxCondition(q)| + |PriceMinCondition(q)| + |PriceMaxCondition(q)|;
  }

  /** The conditional appends of search_catalog: the conditions hold of a car exactly
      when it answers the query, and there are none exactly when nothing is asked. */
  method BuildFilters(q: CatalogQuery) returns (filters: seq<Condition>)
    ensures forall c :: AllHold(filters, c) <==> Matches(q, c)
    ensures filters == [] <==> Unfiltered(q)
    ensures |filters| <= 8
  {
    filters := [];
    if Truthy(q.make) {
      filters := filters + [ILike(MakeColumn, q.make.value)];
    }
    assert filters == MakeCondition(q);
    if Truthy(q.model) {
      filters := filters + [ILike(ModelColumn, q.model.value)];
    }
    assert filters == MakeCondition(q) + ModelCondition(q);
    if Truthy(q.city) {
      filters := filters + [ILike(CityColumn, q.city.value)];
    }
    assert filters == MakeCondition(q) + ModelCondition(q) + CityCondition(q);
    if Truthy(q.transmission) {
      filters := filters + [ILike(TransmissionColumn, q.transmission.value)];
    }
    assert filters == MakeCondition(q) + ModelCondition(q) + CityCondition(q) + TransmissionCondition(q);
    if q.yearMin.Some? {
      filters := filters + [YearAtLeast(q.yearMin.value)];
    }
    assert filters == MakeCondition(q) + ModelCondition(q) + CityCondition(q) + TransmissionCondition(q) + YearMinCondition(q);
    if q.yearMax.Some? {
      filters := filters + [YearAtMost(q.yearMax.value)];
    }
    assert filters == MakeCondition(q) + ModelCondition(q) + CityCondition(q) + TransmissionCondition(q) + YearMinCondition(q) + YearMaxCondition(q);
    if q.priceMin.Some? {
      filters := filters + [PriceAtLeast(q.priceMin.value)];
    }
    assert filters == MakeCondition(q) + ModelCondition(q) + CityCondition(q) + TransmissionCondition(q) + YearMinCondition(q) + YearMaxCondition(q) + PriceMinCondition(q);
    if q.priceMax.Some? {
      filters := filters + [PriceAtMost(q.priceMax.value)];
    }
    assert filters == MakeCondition(q) + ModelCondition(q) + CityCondition(q) + TransmissionCondition(q) + YearMinCondition(q) + YearMaxCondition(q) + PriceMinCondition(q) + PriceMaxCondition(q);
    ConditionsCount(q, filters);
    forall c ensures AllHold(filters, c) <==> Matches(q, c) {
      ConditionsMeaning(q, filters, c);
    }
  }

  // ---------------------------------------------------------------------------
  // The statement and its result

  function Price(c: Car): real
  {
    c.rec.priceMxn
  }

  /** The meaning of `select(Car).where(and_(*filters)).order_by(Car.price_mxn.asc())
      .limit(limit)`: the qualifying rows in ascending price, at most `limit` of them.
      The order among equal prices is the database's; this fixes one. */
  function Select(table: seq<Car>, filters: seq<Condition>, limit: nat): seq<Car>
  {
    SlicePrefix(SortBy(Filter(table, (c: Car) => AllHold(filters, c.rec)), Price), limit)
  }

  /** The dictionary search_catalog returns for one car. */
  datatype CarView = CarView(
    id: int,
    make: string,
    model: string,
    year: int,
    priceMxn: real,
    city: string,
    mileageKm: Option<int>,
    transmission: Option<string>,
    fuel: Option<string>,
    bodyType: Option<string>)

  function View(c: Car): CarView
  {
    CarView(c.id, c.rec.make, c.rec.model, c.rec.year, c.rec.priceMxn, c.rec.city,
            c.rec.mileageKm, c.rec.transmission, c.rec.fuel, c.rec.bodyType)
  }

  function Project(cars: seq<Car>): seq<CarView>
  {
    seq(|cars|, i requires 0 <= i < |cars| => View(cars[i]))
  }

  /** The cars of the table that answer the query. */
  function Eligible(table: seq<Car>, q: CatalogQuery): seq<Car>
  {
    Filter(table, (c: Car) => Matches(q, c.rec))
  }

  /** The cheapest `limit` of them, cheapest first. */
  function Chosen(table: seq<Car>, q: CatalogQuery): seq<Car>
    requires ValidLimit(q)
  {
    SlicePrefix(SortBy(Eligible(table, q), Price), q.limit)
  }

  /** search_catalog as a function of the table. */
  function Search(table: seq<Car>, q: CatalogQuery): seq<CarView>
    requires ValidLimit(q)
  {
    Project(Chosen(table, q))
  }

  /** search_catalog: build the WHERE clause, run the statement, project the rows. */
  method SearchCatalog(table: seq<Car>, q: CatalogQuery) returns (out: seq<CarView>)
    requires ValidLimit(q)
    ensures out == Search(table, q)
  {
    var filters := BuildFilters(q);
    FilterSame(table, (c: Car) => AllHold(filters, c.rec), (c: Car) => Matches(q, c.rec));
    var cars := Select(table, filters, q.limit);
    out := Project(cars);
  }

  /** Every result is a car of the table that answers the query; the results come in
      ascending price; there are min(limit, number of matching cars) of them; and the
      chosen cars are matching cars of the table with no car repeated more often than
      the table holds it. */
  lemma SearchSound(table: seq<Car>, q: CatalogQuery)
    requires ValidLimit(q)
    ensures var r := Search(table, q);
      |r| == Min(q.limit, |Eligible(table, q)|) &&
      |r| <= q.limit &&
      (forall i :: 0 <= i < |r| ==> exists c :: c in table && Matches(q, c.rec) && r[i] == View(c)) &&
      (forall i, j :: 0 <= i < j < |r| ==> r[i].priceMxn <= r[j].priceMxn)
    ensures var chosen := Chosen(table, q);
      |chosen| == |Search(table, q)| &&
      (forall i :: 0 <= i < |chosen| ==> Search(table, q)[i] == View(chosen[i])) &&
      multiset(chosen) <= multiset(Eligible(table, q)) <= multiset(table)
  {
    SearchFromTable(table, q);
    SearchAscending(table, q);
    SearchNoRepeats(table, q);
  }

  /** The results are views of matching cars of the table, min(limit, number of
      matching cars) of them. */
  lemma SearchFromTable(table: seq<Car>, q: CatalogQuery)
    requires ValidLimit(q)
    ensures var r := Search(table, q);
      |r| == Min(q.limit, |Eligible(table, q)|) &&
      |r| <= q.limit &&
      (forall i :: 0 <= i < |r| ==> exists c :: c in table && Matches(q, c.rec) && r[i] == View(c))
  {
    var chosen := Chosen(table, q);
    var r := Search(table, q);
    SearchNoRepeats(table, q);
    forall i | 0 <= i < |r| ensures exists c :: c in table && Matches(q, c.rec) && r[i] == View(c) {
      var c := chosen[i];
      assert c in multiset(chosen);
      assert c in Eligible(table, q);
    }
  }

  /** The results come cheapest first. */
  lemma SearchAscending(table: seq<Car>, q: CatalogQuery)
    requires ValidLimit(q)
    ensures var r := Search(table, q);
      forall i, j :: 0 <= i < j < |r| ==> r[i].priceMxn <= r[j].priceMxn
  {
    var sorted := SortBy(Eligible(table, q), Price);
    var chosen := Chosen(table, q);
    var r := Search(table, q);
    forall i, j | 0 <= i < j < |r| ensures r[i].priceMxn <= r[j].priceMxn {
      assert chosen[i] == sorted[i] && chosen[j] == sorted[j];
    }
  }

  /** Result i is the view of chosen car i, and the chosen cars repeat no car more
      often than the matching cars, and those the table, hold it. */
  lemma SearchNoRepeats(table: seq<Car>, q: CatalogQuery)
    requires ValidLimit(q)
    ensures var chosen := Chosen(table, q);
      |chosen| == |Search(table, q)| &&
      (forall i :: 0 <= i < |chosen| ==> Search(table, q)[i] == View(chosen[i])) &&
      multiset(chosen) <= multiset(Eligible(table, q)) <= multiset(table)
  {
    SlicePrefixSubMultiset(SortBy(Eligible(table, q), Price), q.limit);
    FilterSubMultiset(table, (c: Car) => Matches(q, c.rec));
  }

  /** Nothing cheaper is left out: a matching car missing from the result means the
      result is full and every result costs at most as much as that car. */
  lemma SearchComplete(table: seq<Car>, q: CatalogQuery, c: Car)
    requires ValidLimit(q)
    requires c in table && Matches(q, c.rec)
    requires View(c) !in Search(table, q)
    ensures |Search(table, q)| == q.limit
    ensures forall i :: 0 <= i < q.limit ==> Search(table, q)[i].priceMxn <= c.rec.priceMxn
  {
    var eligible := Eligible(table, q);
    var sorted := SortBy(eligible, Price);
    var chosen := Chosen(table, q);
    var r := Search(table, q);
    assert c in eligible;
    assert c in multiset(sorted);
    var k :| 0 <= k < |sorted| && sorted[k] == c;
    forall j | 0 <= j < |chosen| ensures sorted[j] != c {
      assert r[j] == View(sorted[j]);
      assert r[j] in r;
    }
    assert |chosen| == q.limit;
    assert c in sorted[q.limit..];
    PrefixIsSmallest(sorted, Price, q.limit, c);
    forall i | 0 <= i < q.limit ensures r[i].priceMxn <= c.rec.priceMxn {
      assert r[i].priceMxn == Price(sorted[i]);
    }
  }

  /** With nothing asked, every car is eligible: the result is the cheapest `limit`
      cars of the whole table. */
  lemma SearchUnfiltered(table: seq<Car>, q: CatalogQuery)
    requires ValidLimit(q) && Unfiltered(q)
    ensures Eligible(table, q) == table
    ensures |Search(table, q)| == Min(q.limit, |table|)
  {
    FilterAll(table, (c: Car) => Matches(q, c.rec));
    SearchSound(table, q);
  }

  /** The catalogue search example: over a nissan sentra and a mazda mazda3, asking
      for make "nissan" with limit 5 returns exactly the sentra. */
  lemma SearchByMakeExample(sentra: Car, mazda3: Car, q: CatalogQuery)
    requires sentra.rec.make == "nissan" && sentra.rec.model == "sentra"
    requires mazda3.rec.make == "mazda"
    requires q == CatalogQuery(Some("nissan"), None, None, None, None, None, None, None, 5)
    ensures Search([sentra, mazda3], q) == [View(sentra)]
    ensures |Search([sentra, mazda3], q)| == 1 && Search([sentra, mazda3], q)[0].model == "sentra"
  {
    var table := [sentra, mazda3];
    var p := (c: Car) => Matches(q, c.rec);
    assert p(sentra);
    assert |Lower(mazda3.rec.make)| != |Lower(q.make.value)|;
    assert !p(mazda3);
    assert table[1..] == [mazda3] && [mazda3][1..] == [];
    assert Filter([mazda3], p) == [];
    assert Filter(table, p) == [sentra];
    assert Eligible(table, q) == [sentra];
  }
}
