/**
 * The JSON-to-database loader (scraper/pcpartpicker/api/json_to_sqlite.py)
 * with the model field lists of scraper/pcpartpicker/api/models.py. Each
 * scraped file is skipped or turned into one database row per product; a
 * row keeps the product's keys that are fields of the category's model,
 * with "rating" converted to an integer or null.
 */
module JsonToSqlite {
  import opened Wrappers
  import opened Text
  import opened Sequences

  /** A JSON value as json.load returns it. */
  datatype JsonValue =
    | JNull
    | JBool(b: bool)
    | JInt(i: int)
    | JFloat(x: real)
    | JString(s: string)
    | JArray(items: seq<JsonValue>)
    | JObject(members: map<string, JsonValue>)

  type Product = map<string, JsonValue>
  type Row = map<string, JsonValue>

  /** The two keys of a scraped file the loader reads; a missing key is None. */
  datatype DataFile = DataFile(category: Option<string>, products: Option<seq<Product>>)

  const CommonFields: set<string> := {"id", "name", "url", "image_url", "rating", "price"}

  /** CATEGORY_MODEL_MAP, each model given by its field names; each table is named after its category. */
  const CategoryModelMap: map<string, set<string>> := map[
    "cpu" := CommonFields + {"core_count", "performance_core_clock", "performance_core_boost_clock",
                             "microarchitecture", "tdp", "integrated_graphics"},
    "motherboard" := CommonFields + {"socket_cpu", "form_factor", "memory_max", "memory_slots", "color", "memory_type"},
    "video_card" := CommonFields + {"chipset", "memory", "core_clock", "boost_clock", "color", "length"},
    "case" := CommonFields + {"type", "color", "power_supply", "side_panel", "external_volume", "internal_bays"},
    "cpu_cooler" := CommonFields + {"fan_rpm", "noise_level", "color", "radiator_size"},
    "power_supply" := CommonFields + {"type", "efficiency_rating", "wattage", "modular", "color"},
    "storage" := CommonFields + {"capacity", "price_per_gb", "type", "cache", "form_factor", "interface"},
    "memory" := CommonFields + {"speed", "modules", "price_per_gb", "color", "first_word_latency", "cas_latency"}]

  // ---------------------------------------------------------------------
  // The rating conversion
  // ---------------------------------------------------------------------

  /** The sign and digits int() accepts once the whitespace is stripped. */
  function ParseSigned(t: string): (r: Option<int>)
    ensures r.Some? ==> exists k: nat :: k < |t| && IsDigit(t[k])
  {
    if t != [] && (t[0] == '-' || t[0] == '+') then
      var d := t[1..];
      if d != [] && AllDigits(d) then
        assert IsDigit(t[1]);
        var v: int := DigitsValue(d);
        Some(if t[0] == '-' then -v else v)
      else None
    else if t != [] && AllDigits(t) then
      assert IsDigit(t[0]);
      Some(DigitsValue(t))
    else None
  }

  /** int(s) on a string: optional surrounding whitespace, an optional sign, then decimal digits. */
  function ParseInt(s: string): (r: Option<int>)
    ensures r.Some? ==> exists k: nat :: k < |Strip(s)| && IsDigit(Strip(s)[k])
  {
    ParseSigned(Strip(s))
  }

  /** `int(value)` under `except (ValueError, TypeError)`: what int() cannot convert becomes None. */
  function IntOrNull(v: JsonValue): (r: JsonValue)
    ensures r.JInt? || r.JNull?
  {
    match v
    case JInt(i) => JInt(i)
    case JBool(b) => JInt(if b then 1 else 0)
    case JFloat(x) => JInt(Trunc(x))
    case JString(s) => (match ParseInt(s) case Some(n) => JInt(n) case None => JNull)
    case _ => JNull
  }

  /** The value stored for one key: a non-null rating is converted, everything else is copied. */
  function Coerce(key: string, v: JsonValue): JsonValue {
    if key == "rating" && v != JNull then IntOrNull(v) else v
  }

  /** The row of one product: its keys that are model fields, the rating converted. */
  function FilteredRow(product: Product, fields: set<string>): Row {
    map k | k in product && k in fields :: Coerce(k, product[k])
  }

  lemma StripOfNoSpace(s: string)
    requires s != [] && !IsSpace(s[0]) && !IsSpace(s[|s| - 1])
    ensures Strip(s) == s
  {
    assert LStrip(s) == s;
  }

  lemma ParseSignedNat(n: nat)
    ensures ParseSigned(NatToString(n)) == Some(n)
  {
    var t := NatToString(n);
    assert t[0] != '-' && t[0] != '+' by { assert IsDigit(t[0]); }
    NatToStringRoundTrip(n);
  }

  lemma ParseSignedNegative(n: nat)
    requires n > 0
    ensures ParseSigned("-" + NatToString(n)) == Some(-(n as int))
  {
    var t := "-" + NatToString(n);
    assert t[1..] == NatToString(n);
    NatToStringRoundTrip(n);
  }

  lemma IntToStringNoSpace(n: int)
    ensures !IsSpace(IntToString(n)[0]) && !IsSpace(IntToString(n)[|IntToString(n)| - 1])
  {
  }

  /** A rating written as str(n) reads back as n. */
  lemma ParseIntRoundTrip(n: int)
    ensures ParseInt(IntToString(n)) == Some(n)
  {
    IntToStringNoSpace(n);
    ParseIntUnpadded(IntToString(n));
    ParseSignedInt(n);
  }

  lemma ParseIntUnpadded(s: string)
    requires s != [] && !IsSpace(s[0]) && !IsSpace(s[|s| - 1])
    ensures ParseInt(s) == ParseSigned(s)
  {
    StripOfNoSpace(s);
  }

  lemma ParseSignedInt(n: int)
    ensures ParseSigned(IntToString(n)) == Some(n)
  {
    if n < 0 {
      ParseSignedNegative(-n);
    } else {
      ParseSignedNat(n);
    }
  }

  /** Text with no digit, such as the empty rating a scraped row carries, is not a number. */
  lemma ParseIntNeedsDigit(s: string)
    requires forall k :: 0 <= k < |s| ==> !IsDigit(s[k])
    ensures ParseInt(s) == None
  {
    var i := StripIsSubstring(s);
  }

  /** A stored rating is an integer or null; a null rating stays null. */
  lemma RatingIsIntOrNull(v: JsonValue)
    ensures Coerce("rating", v).JInt? || Coerce("rating", v).JNull?
    ensures v == JNull ==> Coerce("rating", v) == JNull
  {
  }

  /** A rating given as the digits of a number becomes that number; the empty rating becomes null. */
  lemma RatingStrings(n: nat)
    ensures Coerce("rating", JString(IntToString(n))) == JInt(n)
    ensures Coerce("rating", JString("")) == JNull
  {
    ParseIntRoundTrip(n);
    RatingOfString(IntToString(n), Some(n));
    ParseIntNeedsDigit("");
    RatingOfString("", None);
  }

  /** A non-null rating string becomes the number int() reads from it, or null. */
  lemma RatingOfString(s: string, parsed: Option<int>)
    requires ParseInt(s) == parsed
    ensures Coerce("rating", JString(s)) == (if parsed.Some? then JInt(parsed.value) else JNull)
  {
  }

  /** Every key of a row is a field of the model and a key of the product; other keys keep their values. */
  lemma FilteredRowShape(product: Product, fields: set<string>)
    ensures FilteredRow(product, fields).Keys == product.Keys * fields
    ensures forall k :: k in FilteredRow(product, fields) && k != "rating" ==> FilteredRow(product, fields)[k] == product[k]
  {
  }

  /** The inner loop over `product.items()`, filling `filtered_data` key by key. */
  method FilterProduct(product: Product, fields: set<string>) returns (row: Row)
    ensures row == FilteredRow(product, fields)
  {
    row := map[];
    var keys := product.Keys;
    while keys != {}
      invariant keys <= product.Keys
      invariant row == map k | k in product && k !in keys && k in fields :: Coerce(k, product[k])
      decreases keys
    {
      var key :| key in keys;
      var value := product[key];
      if key in fields {
        if key == "rating" && value != JNull {
          value := IntOrNull(value);
        }
        row := row[key := value];
      }
      keys := keys - {key};
    }
  }

  // ---------------------------------------------------------------------
  // One file
  // ---------------------------------------------------------------------

  datatype SkipReason = NoCategoryOrProducts | NoModel(category: string)

  datatype FileOutcome =
    | Skipped(reason: SkipReason)
    | Inserted(table: string, rows: seq<Row>, insertedCount: nat)

  function Products(data: DataFile): seq<Product> {
    data.products.GetOr([])
  }

  /** Truthiness of the category. */
  predicate HasCategory(data: DataFile) {
    data.category.Some? && data.category.value != ""
  }

  /** What the loop body of main does with one file. */
  function Convert(data: DataFile): FileOutcome {
    if !HasCategory(data) || Products(data) == [] then Skipped(NoCategoryOrProducts)
    else if data.category.value !in CategoryModelMap then Skipped(NoModel(data.category.value))
    else
      var fields := CategoryModelMap[data.category.value];
      var ps := Products(data);
      Inserted(data.category.value, Map(RowFilter(fields), ps), |ps|)
  }

  /** The per-product projection onto one model's fields. */
  function RowFilter(fields: set<string>): Product -> Row {
    p => FilteredRow(p, fields)
  }

  /** A file is skipped iff its category is missing or empty, it has no products, or no model is mapped to its category. */
  lemma SkipRules(data: DataFile)
    ensures Convert(data).Skipped? <==>
            !HasCategory(data) || Products(data) == [] || data.category.value !in CategoryModelMap
    ensures Convert(data) == Skipped(NoCategoryOrProducts) <==> !HasCategory(data) || Products(data) == []
  {
  }

  /** A converted file yields one row per product, in product order, counted by inserted_count. */
  lemma InsertedRows(data: DataFile)
    requires Convert(data).Inserted?
    ensures Convert(data).table == data.category.value && Convert(data).table in CategoryModelMap
    ensures Convert(data).insertedCount == |Convert(data).rows| == |Products(data)|
    ensures forall i, k :: 0 <= i < |Products(data)| && k in Convert(data).rows[i] ==>
              k in CategoryModelMap[Convert(data).table] && k in Products(data)[i]
    ensures forall i, k :: 0 <= i < |Products(data)| && k in Convert(data).rows[i] && k != "rating" ==>
              Convert(data).rows[i][k] == Products(data)[i][k]
  {
  }

  /** What a file adds to the session: one (table, row) pair per inserted row. */
  function Added(o: FileOutcome): seq<(string, Row)> {
    match o
    case Skipped(_) => []
    case Inserted(table, rows, _) => Map(Tag(table), rows)
  }

  /** Pairs a row with the table it goes to. */
  function Tag(table: string): Row -> (string, Row) {
    row => (table, row)
  }

  /** The rows added across a sequence of files, in file order. */
  function AllAdded(files: seq<DataFile>): seq<(string, Row)>
    decreases |files|
  {
    if files == [] then [] else AllAdded(files[..|files| - 1]) + Added(Convert(files[|files| - 1]))
  }

  /** The database session: the rows added to it so far. */
  class Session {
    var added: seq<(string, Row)>

    constructor ()
      ensures added == []
    {
      added := [];
    }

    method Add(table: string, row: Row)
      modifies this
      ensures added == old(added) + [(table, row)]
    {
      added := added + [(table, row)];
    }
  }

  /** The body of the file loop: the skip rules, then one row per product added and counted. */
  method ConvertFile(session: Session, data: DataFile) returns (outcome: FileOutcome)
    modifies session
    ensures outcome == Convert(data)
    ensures session.added == old(session.added) + Added(outcome)
  {
    if !HasCategory(data) || Products(data) == [] {
      return Skipped(NoCategoryOrProducts);
    }
    var category := data.category.value;
    if category !in CategoryModelMap {
      return Skipped(NoModel(category));
    }
    var fields := CategoryModelMap[category];
    var products := Products(data);
    var rows, insertedCount := InsertProducts(session, category, fields, products);
    outcome := Inserted(category, rows, insertedCount);
  }

  /** The product loop of one file: each product filtered to the model's fields, added and counted. */
  method InsertProducts(session: Session, table: string, fields: set<string>, products: seq<Product>)
    returns (rows: seq<Row>, insertedCount: nat)
    modifies session
    ensures rows == Map(RowFilter(fields), products) && insertedCount == |products|
    ensures session.added == old(session.added) + Map(Tag(table), rows)
  {
    rows := [];
    insertedCount := 0;
    for i := 0 to |products|
      invariant insertedCount == i == |rows|
      invariant rows == Map(RowFilter(fields), products[..i])
      invariant session.added == old(session.added) + Map(Tag(table), rows)
    {
      var row := FilterProduct(products[i], fields);
      session.Add(table, row);
      MapSnoc(RowFilter(fields), products, i);
      MapAppend(Tag(table), rows, row);
      rows := rows + [row];
      insertedCount := insertedCount + 1;
    }
    assert products[..|products|] == products;
  }

  /** main: every scraped file, in order, into one session. */
  method LoadAll(files: seq<DataFile>) returns (outcomes: seq<FileOutcome>, session: Session)
    ensures fresh(session)
    ensures |outcomes| == |files|
    ensures forall i :: 0 <= i < |files| ==> outcomes[i] == Convert(files[i])
    ensures session.added == AllAdded(files)
  {
    session := new Session();
    outcomes := [];
    for i := 0 to |files|
      invariant |outcomes| == i
      invariant forall j :: 0 <= j < i ==> outcomes[j] == Convert(files[j])
      invariant session.added == AllAdded(files[..i])
    {
      var o := ConvertFile(session, files[i]);
      outcomes := outcomes + [o];
      assert files[..i + 1][..i] == files[..i];
      assert AllAdded(files[..i + 1]) == AllAdded(files[..i]) + Added(Convert(files[i]));
    }
    assert files[..|files|] == files;
  }

  /** Every added row belongs to a mapped table and holds only that model's fields. */
  lemma {:induction false} AddedRowsFitTheirModel(files: seq<DataFile>)
    ensures forall p :: p in AllAdded(files) ==>
              p.0 in CategoryModelMap && p.1.Keys <= CategoryModelMap[p.0]
    decreases |files|
  {
    if files != [] {
      AddedRowsFitTheirModel(files[..|files| - 1]);
      var o := Convert(files[|files| - 1]);
      if o.Inserted? {
        InsertedRows(files[|files| - 1]);
      }
    }
  }
}
