/** The catalog loader's conversions and row mapping: `_strip`, `_to_int`,
    `_to_decimal`, `_to_bool`, how `main` turns each CSV row into a car or skips it,
    and its `rows` and `inserted` counters. */
module Seed {

  import opened Common
  import opened Text
  import opened Models

  /** A CSV row as DictReader gives it, column to text; a column the file lacks, or a
      field a short row lacks, is absent and reads as None. */
  type Row = map<string, string>

  /** `row.get(column)`. */
  function Get(row: Row, column: string): Option<string>
  {
    if column in row then Some(row[column]) else None
  }

  /** `_strip(v)`: "" for None, the text without surrounding whitespace otherwise. */
  function Strip(v: Option<string>): string
  {
    if v.Some? then Trim(v.value) else ""
  }

  /** `_strip` leaves nothing to strip. */
  lemma StripStripped(v: Option<string>)
    ensures Stripped(Strip(v))
  {
    if v.Some? {
      TrimSpec(v.value);
    }
  }

  /** `s.replace(",", "")`. */
  function WithoutCommas(s: string): (r: string)
    ensures ',' !in r && |r| <= |s|
  {
    if s == [] then [] else (if s[0] == ',' then [] else [s[0]]) + WithoutCommas(s[1..])
  }

  lemma {:induction false} WithoutCommasAppend(a: string, b: string)
    ensures WithoutCommas(a + b) == WithoutCommas(a) + WithoutCommas(b)
  {
    if a != [] {
      assert (a + b)[1..] == a[1..] + b;
      WithoutCommasAppend(a[1..], b);
    } else {
      assert a + b == b;
    }
  }

  /** Removing commas from text that has none changes nothing. */
  lemma {:induction false} WithoutCommasNone(s: string)
    requires ',' !in s
    ensures WithoutCommas(s) == s
  {
    if s != [] {
      WithoutCommasNone(s[1..]);
      assert s == [s[0]] + s[1..];
    }
  }

  predicate IsDigit(c: char)
  {
    '0' <= c <= '9'
  }

  predicate AllDigits(s: string)
  {
    forall i :: 0 <= i < |s| ==> IsDigit(s[i])
  }

  /** The value of decimal digits, most significant first. */
  function DigitsValue(s: string): nat
    requires AllDigits(s)
  {
    if s == [] then 0 else DigitsValue(s[..|s| - 1]) * 10 + (s[|s| - 1] as int - '0' as int)
  }

  function Pow10(n: nat): (p: nat)
    ensures p >= 1
  {
    if n == 0 then 1 else 10 * Pow10(n - 1)
  }

  /** A number in the part of the grammar of Python's `float()` and `Decimal()` that
      this model accepts: an optional sign, digits, and an optional fraction after a
      point, with at least one digit in all. */
  datatype Numeral = Numeral(negative: bool, whole: string, fraction: string)

  predicate WellFormed(n: Numeral)
  {
    AllDigits(n.whole) && AllDigits(n.fraction) && (n.whole != [] || n.fraction != [])
  }

  /** Splits off an optional sign: whether it is "-", and the rest. */
  function Sign(s: string): (bool, string)
  {
    if s != [] && (s[0] == '-' || s[0] == '+') then (s[0] == '-', s[1..]) else (false, s)
  }

  /** Reads digits and an optional fraction after a point. */
  function Unsigned(body: string): (r: Option<(string, string)>)
    ensures r.Some? ==> AllDigits(r.value.0) && AllDigits(r.value.1) && (r.value.0 != [] || r.value.1 != [])
  {
    var whole := Before(body, '.');
    var fraction := if |whole| < |body| then body[|whole| + 1..] else [];
    if AllDigits(whole) && AllDigits(fraction) && (whole != [] || fraction != []) then Some((whole, fraction))
    else None
  }

  /** Reads a numeral; None stands for the ValueError or InvalidOperation the
      conversions catch. */
  function ParseNumeral(s: string): (r: Option<Numeral>)
    ensures r.Some? ==> WellFormed(r.value)
  {
    var (negative, body) := Sign(s);
    match Unsigned(body)
    case None => None
    case Some((whole, fraction)) => Some(Numeral(negative, whole, fraction))
  }

  /** The text of digits and a fraction, as `str` would write them. */
  function RenderUnsigned(whole: string, fraction: string): string
  {
    whole + (if fraction != [] then "." + fraction else "")
  }

  /** The text of a numeral. */
  function Render(n: Numeral): string
  {
    (if n.negative then "-" else "") + RenderUnsigned(n.whole, n.fraction)
  }

  lemma NoPoint(d: string)
    requires AllDigits(d)
    ensures '.' !in d
  {
  }

  lemma UnsignedRender(whole: string, fraction: string)
    requires AllDigits(whole) && AllDigits(fraction) && (whole != [] || fraction != [])
    ensures Unsigned(RenderUnsigned(whole, fraction)) == Some((whole, fraction))
  {
    var body := RenderUnsigned(whole, fraction);
    NoPoint(whole);
    BeforeWhole(whole, '.');
    if fraction != [] {
      assert body == whole + ['.'] + fraction;
      BeforeJoin(whole, fraction, '.');
      assert body[|whole| + 1..] == fraction;
    }
  }

  lemma SignRender(negative: bool, body: string)
    requires body == [] || IsDigit(body[0]) || body[0] == '.'
    ensures Sign((if negative then "-" else "") + body) == (negative, body)
  {
    if negative {
      assert ("-" + body)[1..] == body;
    } else {
      assert "" + body == body;
    }
  }

  /** Reading back a written numeral gives the numeral. */
  lemma ParseRender(n: Numeral)
    requires WellFormed(n)
    ensures ParseNumeral(Render(n)) == Some(n)
  {
    var body := RenderUnsigned(n.whole, n.fraction);
    UnsignedRender(n.whole, n.fraction);
    assert body != [] ==> body[0] == if n.whole != [] then n.whole[0] else '.';
    SignRender(n.negative, body);
  }

  /** The value of the digits after the point: a proper fraction, zero for zero
      digits. */
  function FractionValue(f: string): (r: real)
    requires AllDigits(f)
    ensures DigitsValue(f) == 0 ==> r == 0.0
    ensures 0.0 <= r
  {
    DigitsValue(f) as real / Pow10(|f|) as real
  }

  /** The exact value of a numeral. */
  function NumeralValue(n: Numeral): real
    requires WellFormed(n)
  {
    var magnitude := DigitsValue(n.whole) as real + FractionValue(n.fraction);
    if n.negative then -magnitude else magnitude
  }

  /** `int(x)` on a float: truncation toward zero. */
  function Truncate(x: real): (r: int)
    ensures x >= 0.0 ==> r as real <= x < r as real + 1.0
    ensures x < 0.0 ==> r as real - 1.0 < x <= r as real
  {
    if x >= 0.0 then x.Floor else -((-x).Floor)
  }

  /** `_to_decimal(v)`: None for empty or unreadable text, the value otherwise, commas
      ignored. */
  function ToDecimal(v: Option<string>): Option<real>
  {
    var s := Strip(v);
    if s == "" then None
    else
      match ParseNumeral(WithoutCommas(s))
      case None => None
      case Some(n) => Some(NumeralValue(n))
  }

  /** `_to_int(v)`: as `int(float(s))` after removing commas. */
  function ToInt(v: Option<string>): Option<int>
  {
    var s := Strip(v);
    if s == "" then None
    else
      match ParseNumeral(WithoutCommas(s))
      case None => None
      case Some(n) => Some(Truncate(NumeralValue(n)))
  }

  /** On the grammar modelled, `int(float(s))` and `Decimal(s)` read the same number:
      `_to_int` is `_to_decimal` truncated toward zero. */
  lemma IntIsTruncatedDecimal(v: Option<string>)
    ensures ToInt(v).Some? <==> ToDecimal(v).Some?
    ensures ToInt(v).Some? ==> ToInt(v).value == Truncate(ToDecimal(v).value)
  {
  }

  /** Both conversions depend only on the text once stripped and rid of commas. */
  lemma SameCleanText(v: Option<string>, w: Option<string>)
    requires Strip(v) != "" && Strip(w) != ""
    requires WithoutCommas(Strip(v)) == WithoutCommas(Strip(w))
    ensures ToDecimal(v) == ToDecimal(w) && ToInt(v) == ToInt(w)
  {
  }

  /** Digit groups separated by commas read as the digits without them. */
  lemma {:induction false} CommasIgnored(s: string)
    requires Stripped(s) && s != [] && s[0] != ',' && s[|s| - 1] != ','
    ensures ToDecimal(Some(s)) == ToDecimal(Some(WithoutCommas(s)))
    ensures ToInt(Some(s)) == ToInt(Some(WithoutCommas(s)))
  {
    var t := WithoutCommas(s);
    assert Strip(Some(s)) == s by {
      TrimStripped(s);
    }
    assert t != [] && t[0] == s[0] by {
      assert s == [s[0]] + s[1..];
      WithoutCommasAppend([s[0]], s[1..]);
    }
    assert t[|t| - 1] == s[|s| - 1] by {
      var init := s[..|s| - 1];
      assert s == init + [s[|s| - 1]];
      WithoutCommasAppend(init, [s[|s| - 1]]);
      assert WithoutCommas([s[|s| - 1]]) == [s[|s| - 1]];
    }
    assert Strip(Some(t)) == t by {
      TrimStripped(t);
    }
    assert WithoutCommas(t) == t by {
      WithoutCommasNone(t);
    }
    SameCleanText(Some(s), Some(t));
  }

  /** A run of digits is read as a numeral with no fraction, and followed by ".0" as
      one with the fraction "0". */
  lemma ParseDigits(d: string)
    requires AllDigits(d) && d != []
    ensures ParseNumeral(d) == Some(Numeral(false, d, []))
    ensures ParseNumeral(d + ".0") == Some(Numeral(false, d, "0"))
  {
    ParseRender(Numeral(false, d, []));
    assert Render(Numeral(false, d, [])) == d;
    ParseRender(Numeral(false, d, "0"));
    assert Render(Numeral(false, d, "0")) == d + ".0";
  }

  /** Text with nothing to strip and no commas is converted by reading its numeral. */
  lemma ReadPlain(s: string)
    requires Stripped(s) && s != [] && ',' !in s
    ensures ToDecimal(Some(s)) == match ParseNumeral(s) case None => None case Some(n) => Some(NumeralValue(n))
    ensures ToInt(Some(s)) == match ParseNumeral(s) case None => None case Some(n) => Some(Truncate(NumeralValue(n)))
  {
    TrimStripped(s);
    WithoutCommasNone(s);
  }

  lemma NoCommaOrSpace(d: string)
    requires AllDigits(d) && d != []
    ensures ',' !in d && Stripped(d)
  {
    assert IsDigit(d[0]) && IsDigit(d[|d| - 1]);
  }

  /** A run of digits reads as its value. */
  lemma DigitsRead(d: string)
    requires AllDigits(d) && d != []
    ensures ToInt(Some(d)) == Some(DigitsValue(d))
    ensures ToDecimal(Some(d)) == Some(DigitsValue(d) as real)
  {
    NoCommaOrSpace(d);
    ParseDigits(d);
    ReadPlain(d);
    assert NumeralValue(Numeral(false, d, [])) == DigitsValue(d) as real;
  }

  /** A run of digits followed by ".0", as a spreadsheet writes a whole number, reads
      as the digits' value. */
  lemma ZeroFractionRead(d: string)
    requires AllDigits(d) && d != []
    ensures ToInt(Some(d + ".0")) == Some(DigitsValue(d))
    ensures ToDecimal(Some(d + ".0")) == Some(DigitsValue(d) as real)
  {
    var z := d + ".0";
    ZeroFractionPlain(d);
    assert ParseNumeral(z) == Some(Numeral(false, d, "0")) by { ParseDigits(d); }
    ReadPlain(z);
    assert NumeralValue(Numeral(false, d, "0")) == DigitsValue(d) as real by {
      assert DigitsValue("0") == 0;
    }
  }

  /** Digits followed by ".0" have nothing to strip and no comma. */
  lemma ZeroFractionPlain(d: string)
    requires AllDigits(d) && d != []
    ensures var z := d + ".0"; ',' !in z && Stripped(z)
  {
    var z := d + ".0";
    NoCommaOrSpace(d);
    assert z[0] == d[0] && z[|z| - 1] == '0';
    forall i | 0 <= i < |z| ensures z[i] != ',' {
      if i < |d| {
        assert z[i] == d[i];
      }
    }
  }

  /** The words `_to_bool` reads as True and as False. */
  const TrueWords: set<string> := {"si", "s\U{ed}", "true", "1", "yes", "y"}
  const FalseWords: set<string> := {"no", "false", "0", "n"}

  /** The decision `_to_bool` makes on the lowered, stripped text. */
  function ReadBool(s: string): Option<bool>
  {
    if s == "" then None
    else if s in TrueWords then Some(true)
    else if s in FalseWords then Some(false)
    else None
  }

  /** `_to_bool(v)`. */
  function ToBool(v: Option<string>): Option<bool>
  {
    ReadBool(Lower(Strip(v)))
  }

  /** `_to_bool` ignores case and surrounding whitespace. */
  lemma ToBoolInsensitive(s: string)
    ensures ToBool(Some(Lower(s))) == ToBool(Some(s))
    ensures ToBool(Some(Trim(s))) == ToBool(Some(s))
  {
    LowerTrim(s);
    LowerSpec(Trim(s));
    assert Lower(Strip(Some(Lower(s)))) == Lower(Strip(Some(s)));
    TrimIdempotent(s);
    assert Lower(Strip(Some(Trim(s)))) == Lower(Strip(Some(s)));
  }

  /** The two word lists do not overlap, so each word is read one way: a word of the
      first list as True, of the second as False, anything else as None. */
  lemma ReadBoolWords(s: string)
    ensures ReadBool(s) == Some(true) <==> s in TrueWords
    ensures ReadBool(s) == Some(false) <==> s in FalseWords
    ensures ReadBool(s).None? <==> s !in TrueWords && s !in FalseWords
  {
    assert "no" !in TrueWords && "false" !in TrueWords && "0" !in TrueWords && "n" !in TrueWords;
    assert "" !in TrueWords && "" !in FalseWords;
  }

  /** Lower-casing reaches the listed words from capitals, accented ones included:
      "S\U{cd}" lowers to a word read as True and "No" to one read as False. */
  lemma CapitalWordsRead()
    ensures Lower("S\U{cd}") in TrueWords && Lower("No") in FalseWords
  {
    assert Lower("S\U{cd}") == "s\U{ed}" by {
      assert LowerChar('S') == 's' && LowerChar('\U{cd}') == '\U{ed}';
    }
    assert Lower("No") == "no" by {
      assert LowerChar('N') == 'n' && LowerChar('o') == 'o';
    }
  }

  function IntSlot(v: Option<int>): Option<Feature>
  {
    if v.Some? then Some(IntFeature(v.value)) else None
  }

  function BoolSlot(v: Option<bool>): Option<Feature>
  {
    if v.Some? then Some(BoolFeature(v.value)) else None
  }

  /** The features dict before cleaning, in its key order, from the converted
      stock_id, version, bluetooth, car_play, largo, ancho and altura columns. */
  function FeatureSlots(stock: Option<int>, version: string, bluetooth: Option<bool>, carPlay: Option<bool>,
                        largo: Option<int>, ancho: Option<int>, altura: Option<int>): seq<(string, Option<Feature>)>
  {
    [("stock_id", IntSlot(stock)), ("version", Some(TextFeature(version))),
     ("bluetooth", BoolSlot(bluetooth)), ("car_play", BoolSlot(carPlay)),
     ("largo", IntSlot(largo)), ("ancho", IntSlot(ancho)), ("altura", IntSlot(altura))]
  }

  /** `v in (None, "", [])`. */
  predicate Blank(v: Option<Feature>)
  {
    v.None? || v.value == TextFeature("")
  }

  /** `{k: v for k, v in features.items() if v not in (None, "", [])}`. */
  function Cleaned(slots: seq<(string, Option<Feature>)>): Features
  {
    if slots == [] then []
    else (if Blank(slots[0].1) then [] else [(slots[0].0, slots[0].1.value)]) + Cleaned(slots[1..])
  }

  /** Cleaning keeps exactly the filled values, each under its key, in order. */
  lemma {:induction false} CleanedSpec(slots: seq<(string, Option<Feature>)>, k: string, f: Feature)
    ensures (k, f) in Cleaned(slots) <==> (k, Some(f)) in slots && f != TextFeature("")
  {
    if slots != [] {
      CleanedSpec(slots[1..], k, f);
      assert slots == [slots[0]] + slots[1..];
    }
  }

  /** No feature is the empty text. */
  predicate Filled(fs: Features)
  {
    forall i :: 0 <= i < |fs| ==> fs[i].1 != TextFeature("")
  }

  lemma CleanedFilled(slots: seq<(string, Option<Feature>)>)
    ensures Filled(Cleaned(slots))
  {
    var fs := Cleaned(slots);
    forall i | 0 <= i < |fs| ensures fs[i].1 != TextFeature("") {
      assert fs[i] in fs;
      CleanedSpec(slots, fs[i].0, fs[i].1);
    }
  }

  /** `features.get(key)`. */
  function Lookup(fs: Features, key: string): Option<Feature>
  {
    if fs == [] then None else if fs[0].0 == key then Some(fs[0].1) else Lookup(fs[1..], key)
  }

  /** A key no slot carries is not found after cleaning. */
  lemma {:induction false} LookupCleanedAbsent(slots: seq<(string, Option<Feature>)>, key: string)
    requires forall i :: 0 <= i < |slots| ==> slots[i].0 != key
    ensures Lookup(Cleaned(slots), key) == None
  {
    if slots != [] {
      var rest := Cleaned(slots[1..]);
      LookupCleanedAbsent(slots[1..], key);
      if !Blank(slots[0].1) {
        assert ([(slots[0].0, slots[0].1.value)] + rest)[1..] == rest;
      } else {
        assert [] + rest == rest;
      }
    }
  }

  /** `features.get("stock_id")` as the car's external id. */
  function ExternalId(fs: Features): Option<int>
  {
    match Lookup(fs, "stock_id")
    case Some(IntFeature(n)) => Some(n)
    case _ => None
  }

  /** Cleaning never drops a stock id that was read: the external id is the
      converted stock_id column. */
  lemma ExternalIdIsStockId(stock: Option<int>, version: string, bluetooth: Option<bool>, carPlay: Option<bool>,
                            largo: Option<int>, ancho: Option<int>, altura: Option<int>)
    ensures ExternalId(Cleaned(FeatureSlots(stock, version, bluetooth, carPlay, largo, ancho, altura))) == stock
  {
    var slots := FeatureSlots(stock, version, bluetooth, carPlay, largo, ancho, altura);
    var rest := slots[1..];
    assert slots == [slots[0]] + rest;
    if stock.None? {
      assert forall i :: 0 <= i < |rest| ==> rest[i].0 != "stock_id";
      LookupCleanedAbsent(rest, "stock_id");
      assert Cleaned(slots) == [] + Cleaned(rest) == Cleaned(rest);
    } else {
      assert Cleaned(slots) == [("stock_id", IntFeature(stock.value))] + Cleaned(rest);
    }
  }

  /** Python's `a or b` on optional numbers: a missing or zero `a` gives `b`. */
  function Or<T(==)>(a: Option<T>, b: Option<T>, zero: T): Option<T>
  {
    if a.Some? && a.value != zero then a else b
  }

  /** `s or None`. */
  function OrNone(s: string): Option<string>
  {
    if s != "" then Some(s) else None
  }

  /** Python truthiness of an optional number: None and zero are false. */
  function Nonzero<T(==)>(v: Option<T>, zero: T): bool
  {
    v.Some? && v.value != zero
  }

  /** `city or "N/A"` on the stripped column: never empty, and stripped when the
      column is. */
  function CityOrDefault(city: string): (r: string)
    ensures r != "" && (r == city || (city == "" && r == "N/A"))
    ensures Stripped(city) ==> Stripped(r)
  {
    if city != "" then city else "N/A"
  }

  /** A row's columns as the loop body converts them, before the quality filter. */
  datatype Fields = Fields(
    make: string,
    model: string,
    year: Option<int>,
    price: Option<real>,
    mileage: Option<int>,
    city: string,
    transmission: string,
    fuel: string,
    bodyType: string,
    features: Features)

  /** The conversions at the top of the loop body. */
  function ReadRow(row: Row): Fields
  {
    var slots := FeatureSlots(ToInt(Get(row, "stock_id")), Strip(Get(row, "version")),
                              ToBool(Get(row, "bluetooth")), ToBool(Get(row, "car_play")),
                              ToInt(Get(row, "largo")), ToInt(Get(row, "ancho")), ToInt(Get(row, "altura")));
    Fields(
      Strip(Get(row, "make")),
      Strip(Get(row, "model")),
      ToInt(Get(row, "year")),
      Or(ToDecimal(Get(row, "price")), ToDecimal(Get(row, "price_mxn")), 0.0),
      Or(ToInt(Get(row, "km")), ToInt(Get(row, "mileage_km")), 0),
      CityOrDefault(Strip(Get(row, "city"))),
      Strip(Get(row, "transmission")),
      Strip(Get(row, "fuel")),
      Strip(Get(row, "body_type")),
      Cleaned(slots))
  }

  /** The minimal quality filter: make, model, year and price all present and truthy. */
  predicate Passes(f: Fields)
  {
    f.make != "" && f.model != "" && Nonzero(f.year, 0) && Nonzero(f.price, 0.0)
  }

  /** The skip test and the `Car(...)` built from the converted columns: the
      columns of a `cars` row, as the catalog search reads them. */
  function Assemble(f: Fields): (r: Option<CarRecord>)
    ensures r.Some? <==> Passes(f)
  {
    if f.make == "" || f.model == "" || !Nonzero(f.year, 0) || !Nonzero(f.price, 0.0) then None
    else
      Some(CarRecord(ExternalId(f.features), Trim(f.make), Trim(f.model), f.year.value, f.price.value, f.city,
               f.mileage, OrNone(f.transmission), OrNone(f.fuel), OrNone(f.bodyType),
               if f.features != [] then Some(f.features) else None))
  }

  /** The body of the loop over rows: the car it adds, or None when it skips the row. */
  function MapRow(row: Row): Option<CarRecord>
  {
    Assemble(ReadRow(row))
  }

  /** The converted text columns are stripped. */
  lemma ReadRowStripped(row: Row)
    ensures var f := ReadRow(row);
      Stripped(f.make) && Stripped(f.model) && Stripped(f.transmission) && Stripped(f.fuel) && Stripped(f.bodyType)
  {
    StripStripped(Get(row, "make"));
    StripStripped(Get(row, "model"));
    StripStripped(Get(row, "transmission"));
    StripStripped(Get(row, "fuel"));
    StripStripped(Get(row, "body_type"));
  }

  /** City is never empty: the stripped column when it has text, "N/A" otherwise. */
  lemma ReadRowCity(row: Row)
    ensures var f := ReadRow(row);
      Stripped(f.city) && f.city != "" && (f.city == Strip(Get(row, "city")) || (Strip(Get(row, "city")) == "" && f.city == "N/A"))
  {
    StripStripped(Get(row, "city"));
  }

  /** price_mxn is consulted only when price is missing or zero, and mileage_km only
      when km is. */
  lemma ReadRowFallbacks(row: Row)
    ensures var f := ReadRow(row);
      f.price == (if Nonzero(ToDecimal(Get(row, "price")), 0.0) then ToDecimal(Get(row, "price")) else ToDecimal(Get(row, "price_mxn"))) &&
      f.mileage == (if Nonzero(ToInt(Get(row, "km")), 0) then ToInt(Get(row, "km")) else ToInt(Get(row, "mileage_km")))
  {
  }

  /** The features hold filled values only, and the stock id among them is the
      stock_id column. */
  lemma ReadRowFeatures(row: Row)
    ensures Filled(ReadRow(row).features) && ExternalId(ReadRow(row).features) == ToInt(Get(row, "stock_id"))
  {
    var slots := FeatureSlots(ToInt(Get(row, "stock_id")), Strip(Get(row, "version")),
                              ToBool(Get(row, "bluetooth")), ToBool(Get(row, "car_play")),
                              ToInt(Get(row, "largo")), ToInt(Get(row, "ancho")), ToInt(Get(row, "altura")));
    assert ReadRow(row).features == Cleaned(slots);
    CleanedFilled(slots);
    ExternalIdIsStockId(ToInt(Get(row, "stock_id")), Strip(Get(row, "version")),
                        ToBool(Get(row, "bluetooth")), ToBool(Get(row, "car_play")),
                        ToInt(Get(row, "largo")), ToInt(Get(row, "ancho")), ToInt(Get(row, "altura")));
  }

  /** `make.strip()` and `model.strip()` leave the already stripped columns as read. */
  lemma AssembleNames(f: Fields)
    requires Passes(f) && Stripped(f.make) && Stripped(f.model)
    ensures Assemble(f).value.make == f.make != "" && Assemble(f).value.model == f.model != ""
  {
    TrimStripped(f.make);
    TrimStripped(f.model);
  }

  /** A car built from columns that pass the filter keeps city, year, price and mileage
      as read, year and price not zero. */
  lemma AssembleKeeps(f: Fields)
    requires Passes(f)
    ensures var car := Assemble(f).value;
      Some(car.year) == f.year && car.year != 0 &&
      Some(car.priceMxn) == f.price && car.priceMxn != 0.0 &&
      car.city == f.city && car.mileageKm == f.mileage && car.externalId == ExternalId(f.features)
  {
    var car := Assemble(f).value;
    assert Some(car.year) == f.year;
    assert Some(car.priceMxn) == f.price;
  }

  /** Empty optional columns become None, and so do empty features; a non-empty value
      is kept. */
  lemma AssembleOptional(f: Fields)
    requires Passes(f)
    ensures var car := Assemble(f).value;
      (car.transmission.Some? <==> f.transmission != "") && (car.transmission.Some? ==> car.transmission.value == f.transmission) &&
      (car.fuel.Some? <==> f.fuel != "") && (car.fuel.Some? ==> car.fuel.value == f.fuel) &&
      (car.bodyType.Some? <==> f.bodyType != "") && (car.bodyType.Some? ==> car.bodyType.value == f.bodyType) &&
      (car.features.Some? <==> f.features != []) && (car.features.Some? ==> car.features.value == f.features)
  {
    var car := Assemble(f).value;
    assert car.transmission == OrNone(f.transmission);
    assert car.fuel == OrNone(f.fuel);
    assert car.bodyType == OrNone(f.bodyType);
    assert car.features == if f.features != [] then Some(f.features) else None;
  }

  /** A row is skipped exactly when make or model is empty or year or price is missing
      or zero; a car that is added has make, model and city stripped and not empty,
      and the stock id as its external id. */
  lemma RowMapping(row: Row)
    ensures var f := ReadRow(row);
      (MapRow(row).Some? <==> Passes(f)) &&
      (MapRow(row).Some? ==> var car := MapRow(row).value;
        car.make == Strip(Get(row, "make")) != "" && car.model == Strip(Get(row, "model")) != "" &&
        Stripped(car.city) && car.city != "" && car.externalId == ToInt(Get(row, "stock_id")))
  {
    var f := ReadRow(row);
    ReadRowStripped(row);
    ReadRowCity(row);
    ReadRowFeatures(row);
    if Passes(f) {
      AssembleNames(f);
      AssembleKeeps(f);
    }
  }

  /** The cars added for `rows` by a loop whose body maps a row with `mapRow`, in
      order. */
  function Seeded(mapRow: Row -> Option<CarRecord>, rows: seq<Row>): seq<CarRecord>
  {
    if rows == [] then []
    else Seeded(mapRow, rows[..|rows| - 1]) + (var r := mapRow(rows[|rows| - 1]); if r.Some? then [r.value] else [])
  }

  /** Every added car comes from a row, every row that maps to a car adds one, and
      the cars keep the order of their rows: car k is the car of the k-th row that
      maps. */
  lemma SeededSpec(mapRow: Row -> Option<CarRecord>, rows: seq<Row>)
    ensures |Seeded(mapRow, rows)| <= |rows|
    ensures forall c :: c in Seeded(mapRow, rows) ==> exists i :: 0 <= i < |rows| && mapRow(rows[i]) == Some(c)
    ensures forall i :: 0 <= i < |rows| && mapRow(rows[i]).Some? ==> mapRow(rows[i]).value in Seeded(mapRow, rows)
    ensures var cars, idx := Seeded(mapRow, rows), SomeIndices(rows, mapRow);
      |cars| == |idx| && forall k :: 0 <= k < |idx| ==> mapRow(rows[idx[k]]) == Some(cars[k])
  {
    SeededFromRows(mapRow, rows);
    SeededInOrder(mapRow, rows);
    var cars, idx := Seeded(mapRow, rows), SomeIndices(rows, mapRow);
    forall i | 0 <= i < |rows| && mapRow(rows[i]).Some? ensures mapRow(rows[i]).value in cars {
      var k :| 0 <= k < |idx| && idx[k] == i;
      assert cars[k] == mapRow(rows[i]).value;
    }
  }

  /** Car k is the car of the k-th row that maps. */
  lemma {:induction false} SeededInOrder(mapRow: Row -> Option<CarRecord>, rows: seq<Row>)
    ensures var cars, idx := Seeded(mapRow, rows), SomeIndices(rows, mapRow);
      |cars| == |idx| && forall k :: 0 <= k < |idx| ==> mapRow(rows[idx[k]]) == Some(cars[k])
  {
    if rows != [] {
      var init := rows[..|rows| - 1];
      SeededInOrder(mapRow, init);
      var idx0 := SomeIndices(init, mapRow);
      assert SomeIndices(rows, mapRow) == idx0 + (if mapRow(rows[|rows| - 1]).Some? then [|rows| - 1] else []);
      forall k | 0 <= k < |idx0| ensures rows[idx0[k]] == init[idx0[k]] {
      }
    }
  }

  /** Every added car comes from a row, and when every row maps, every row adds one. */
  lemma {:induction false} SeededFromRows(mapRow: Row -> Option<CarRecord>, rows: seq<Row>)
    ensures |Seeded(mapRow, rows)| <= |rows|
    ensures forall c :: c in Seeded(mapRow, rows) ==> exists i :: 0 <= i < |rows| && mapRow(rows[i]) == Some(c)
    ensures (forall i :: 0 <= i < |rows| ==> mapRow(rows[i]).Some?) ==> |Seeded(mapRow, rows)| == |rows|
  {
    if rows != [] {
      var init := rows[..|rows| - 1];
      SeededFromRows(mapRow, init);
      forall c | c in Seeded(mapRow, rows) ensures exists i :: 0 <= i < |rows| && mapRow(rows[i]) == Some(c) {
        if c in Seeded(mapRow, init) {
          var i :| 0 <= i < |init| && mapRow(init[i]) == Some(c);
          assert rows[i] == init[i];
        } else {
          assert mapRow(rows[|rows| - 1]) == Some(c);
        }
      }
      if forall i :: 0 <= i < |rows| ==> mapRow(rows[i]).Some? {
        forall i | 0 <= i < |init| ensures mapRow(init[i]).Some? {
          assert init[i] == rows[i];
        }
      }
    }
  }

  /** Seeding two batches of rows adds the cars of the first, then of the second. */
  lemma {:induction false} SeededAppend(mapRow: Row -> Option<CarRecord>, a: seq<Row>, b: seq<Row>)
    ensures Seeded(mapRow, a + b) == Seeded(mapRow, a) + Seeded(mapRow, b)
  {
    if b != [] {
      var init := b[..|b| - 1];
      assert (a + b)[..|a + b| - 1] == a + init;
      SeededAppend(mapRow, a, init);
    } else {
      assert a + b == a;
    }
  }

  /** Every car the loader adds comes from a row that passes the quality filter. */
  lemma LoaderAddsOnlyCompleteRows(rows: seq<Row>, c: CarRecord)
    requires c in Seeded(MapRow, rows)
    ensures exists i :: 0 <= i < |rows| && Passes(ReadRow(rows[i])) && MapRow(rows[i]) == Some(c)
  {
    SeededSpec(MapRow, rows);
  }

  /** The loop over the DictReader, whose body maps each row with `mapRow`: counts
      the rows read and the cars added, and returns the cars in the order
      `session.add` received them. */
  method SeedWith(mapRow: Row -> Option<CarRecord>, rows: seq<Row>) returns (cars: seq<CarRecord>, rowsRead: nat, inserted: nat)
    ensures cars == Seeded(mapRow, rows)
    ensures rowsRead == |rows| && inserted == |cars| <= rowsRead
  {
    cars := [];
    rowsRead := 0;
    inserted := 0;
    for i := 0 to |rows|
      invariant cars == Seeded(mapRow, rows[..i]) && rowsRead == i && inserted == |cars| <= i
    {
      assert rows[..i + 1][..i] == rows[..i];
      rowsRead := rowsRead + 1;
      var car := mapRow(rows[i]);
      if car.None? {
        continue;
      }
      cars := cars + [car.value];
      inserted := inserted + 1;
    }
    assert rows[..|rows|] == rows;
  }

  /** `main`'s loop with its own row conversion. */
  method SeedRows(rows: seq<Row>) returns (cars: seq<CarRecord>, rowsRead: nat, inserted: nat)
    ensures cars == Seeded(MapRow, rows)
    ensures rowsRead == |rows| && inserted == |cars| <= rowsRead
  {
    cars, rowsRead, inserted := SeedWith(MapRow, rows);
  }
}
