/**
 * The query layer over the stored catalog `indices.csv`: the distinct countries, and the
 * catalog as rows, as names or as records, optionally restricted to one country. The
 * catalog is given as the sequence of its rows; arguments are Python values, since the
 * functions check their types at run time.
 */
module Queries {
  import opened Outcome
  import opened Text
  import opened Records

  /** A Python argument: `None`, a `bool`, an `int`, a `str`, a `list`, or anything else. */
  datatype PyValue = PyNone | PyBool(b: bool) | PyInt(i: int) | PyStr(s: string) | PyList(items: seq<PyValue>) | PyOther

  /** A catalog row once the `tag` and `id` columns are dropped. */
  datatype IndexView = IndexView(
    country: string,
    name: string,
    fullName: string,
    symbol: Option<string>,
    currency: Option<string>,
    indexClass: IndexClass,
    market: Market)

  /** One cell of an exported record; an empty field of the CSV file reads as missing. */
  datatype Cell = Text(text: string) | Missing

  /** `to_dict(orient='records')`, serialised by `json.dumps` when asked for JSON. */
  datatype Exported = Dicts(rows: seq<map<string, Cell>>) | Json(rows: seq<map<string, Cell>>)

  /** The columns left once `tag` and `id` are dropped, in file order. */
  const Columns: seq<string> := ["country", "name", "full_name", "symbol", "currency", "class", "market"]

  function Drop(x: Record): IndexView
  {
    IndexView(x.country, x.name, x.fullName, x.symbol, x.currency, x.indexClass, x.market)
  }

  function CountryColumn(table: seq<Record>): seq<string>
  {
    seq(|table|, i requires 0 <= i < |table| => table[i].country)
  }

  // ---------------------------------------------------------------------------------
  // index_countries_as_list
  // ---------------------------------------------------------------------------------

  /** `Series.unique()`: each value once, where it first appears. */
  function Unique(xs: seq<string>): seq<string>
  {
    if xs == [] then []
    else
      var u := Unique(xs[..|xs| - 1]);
      if xs[|xs| - 1] in u then u else u + [xs[|xs| - 1]]
  }

  /** The position of the first occurrence of `c` in `xs`. */
  function FirstIndex(xs: seq<string>, c: string): (k: nat)
    requires c in xs
    ensures k < |xs| && xs[k] == c && forall j :: 0 <= j < k ==> xs[j] != c
  {
    if xs[0] == c then 0 else 1 + FirstIndex(xs[1..], c)
  }

  lemma {:induction false} FirstIndexAppend(xs: seq<string>, y: string, c: string)
    requires c in xs
    ensures FirstIndex(xs + [y], c) == FirstIndex(xs, c)
  {
    var k := FirstIndex(xs, c);
    var ys := xs + [y];
    assert ys[k] == c;
    assert forall j :: 0 <= j < k ==> ys[j] == xs[j];
    var k' := FirstIndex(ys, c);
    assert k' <= k;
    assert xs[k'] == c;
  }

  /**
   * The distinct values: each value of `xs` exactly once, listed in the order of their
   * first appearance in `xs`.
   */
  lemma {:induction false} UniqueSpec(xs: seq<string>)
    ensures forall c :: c in Unique(xs) <==> c in xs
    ensures forall i, j :: 0 <= i < j < |Unique(xs)| ==> Unique(xs)[i] != Unique(xs)[j]
    ensures forall i, j :: 0 <= i < j < |Unique(xs)| ==>
              FirstIndex(xs, Unique(xs)[i]) < FirstIndex(xs, Unique(xs)[j])
  {
    if xs != [] {
      var init, last := xs[..|xs| - 1], xs[|xs| - 1];
      assert xs == init + [last];
      UniqueSpec(init);
      var u := Unique(init);
      forall c | c in init ensures FirstIndex(xs, c) == FirstIndex(init, c) {
        FirstIndexAppend(init, last, c);
      }
      if last !in u {
        var v := u + [last];
        assert FirstIndex(xs, last) == |init| by {
          assert last !in init;
        }
        forall i, j | 0 <= i < j < |v|
          ensures FirstIndex(xs, v[i]) < FirstIndex(xs, v[j])
        {
          assert v[i] == u[i] && v[i] in init;
          if j < |u| {
            assert v[j] == u[j];
          }
        }
      }
    }
  }

  /** `index_countries_as_list()`: the distinct countries of the catalog, if it exists. */
  function IndexCountriesAsList(catalog: Option<seq<Record>>): Result<seq<string>>
  {
    match catalog
    case None => Err(FileNotFoundError("ERR#0059"))
    case Some(table) => Ok(Unique(CountryColumn(table)))
  }

  /** A country is listed exactly when some row of the catalog carries it. */
  lemma ListedCountry(table: seq<Record>, c: string)
    ensures c in IndexCountriesAsList(Some(table)).value <==>
              exists k :: 0 <= k < |table| && table[k].country == c
  {
    var cs := CountryColumn(table);
    UniqueSpec(cs);
    if c in cs {
      var k :| 0 <= k < |cs| && cs[k] == c;
      assert table[k].country == c;
    }
    if exists k :: 0 <= k < |table| && table[k].country == c {
      var k :| 0 <= k < |table| && table[k].country == c;
      assert cs[k] == c;
    }
  }

  // ---------------------------------------------------------------------------------
  // indices_as_df, indices_as_list
  // ---------------------------------------------------------------------------------

  /** `indices[indices['country'] == key]`: the rows of that country, in catalog order. */
  function RowsOf(table: seq<Record>, key: string): seq<Record>
  {
    if table == [] then []
    else if table[0].country == key then [table[0]] + RowsOf(table[1..], key)
    else RowsOf(table[1..], key)
  }

  /** Filtering keeps exactly the rows of the country, and keeps them in order. */
  lemma {:induction false} RowsOfSpec(table: seq<Record>, key: string)
    ensures forall x :: x in RowsOf(table, key) <==> x in table && x.country == key
    ensures RowsOf(table, key) == [] <==> forall k :: 0 <= k < |table| ==> table[k].country != key
  {
    if table != [] {
      RowsOfSpec(table[1..], key);
      assert table == [table[0]] + table[1..];
      assert forall k :: 0 < k < |table| ==> table[k] == table[1..][k - 1];
    }
  }

  /** Filtering a catalog made of two parts filters each part. */
  lemma {:induction false} RowsOfAppend(t: seq<Record>, u: seq<Record>, key: string)
    ensures RowsOf(t + u, key) == RowsOf(t, key) + RowsOf(u, key)
  {
    if t != [] {
      assert (t + u)[1..] == t[1..] + u;
      RowsOfAppend(t[1..], u, key);
    } else {
      assert t + u == u;
    }
  }

  function Views(rows: seq<Record>): seq<IndexView>
  {
    seq(|rows|, i requires 0 <= i < |rows| => Drop(rows[i]))
  }

  function Names(rows: seq<Record>): seq<string>
  {
    seq(|rows|, i requires 0 <= i < |rows| => rows[i].name)
  }

  /** The argument check shared by the three queries. */
  predicate CountryArgOk(country: PyValue)
  {
    country.PyNone? || country.PyStr?
  }

  /**
   * `indices_as_df(country)`: the catalog without `tag` and `id`, or only the rows of the
   * folded country; `None` (Python's implicit return) when that country is not listed.
   */
  function IndicesAsDf(table: seq<Record>, country: PyValue, fold: string -> string): Result<Option<seq<IndexView>>>
  {
    if !CountryArgOk(country) then Err(ValueError("ERR#0025"))
    else if country.PyNone? then Ok(Some(Views(table)))
    else
      var key := fold(country.s);
      if key in IndexCountriesAsList(Some(table)).value then Ok(Some(Views(RowsOf(table, key))))
      else Ok(None)
  }

  /** `indices_as_list(country)`: the names of the same rows. */
  function IndicesAsList(table: seq<Record>, country: PyValue, fold: string -> string): Result<Option<seq<string>>>
  {
    if !CountryArgOk(country) then Err(ValueError("ERR#0025"))
    else if country.PyNone? then Ok(Some(Names(table)))
    else
      var key := fold(country.s);
      if key in IndexCountriesAsList(Some(table)).value then Ok(Some(Names(RowsOf(table, key))))
      else Ok(None)
  }

  /**
   * For a country, `indices_as_df` returns `None` exactly when no row carries the folded
   * country; otherwise it returns exactly those rows, in catalog order, without `tag` and `id`.
   */
  lemma IndicesAsDfSpec(table: seq<Record>, c: string, fold: string -> string)
    ensures IndicesAsDf(table, PyStr(c), fold).Ok?
    ensures IndicesAsDf(table, PyStr(c), fold).value.None? <==>
              forall k :: 0 <= k < |table| ==> table[k].country != fold(c)
    ensures IndicesAsDf(table, PyStr(c), fold).value.Some? ==>
              var rows := RowsOf(table, fold(c));
              rows != []
              && IndicesAsDf(table, PyStr(c), fold).value.value == Views(rows)
              && forall x :: x in rows <==> x in table && x.country == fold(c)
  {
    ListedCountry(table, fold(c));
    RowsOfSpec(table, fold(c));
  }

  /** `indices_as_list` answers with the names of the rows `indices_as_df` answers with. */
  lemma ListAgreesWithDf(table: seq<Record>, country: PyValue, fold: string -> string)
    ensures IndicesAsList(table, country, fold).Err? <==> IndicesAsDf(table, country, fold).Err?
    ensures IndicesAsList(table, country, fold).Ok? ==>
              (IndicesAsList(table, country, fold).value.None? <==> IndicesAsDf(table, country, fold).value.None?)
    ensures IndicesAsList(table, country, fold).Ok? && IndicesAsList(table, country, fold).value.Some? ==>
              var names, views := IndicesAsList(table, country, fold).value.value, IndicesAsDf(table, country, fold).value.value;
              |names| == |views| && forall i :: 0 <= i < |names| ==> names[i] == views[i].name
  {
  }

  // ---------------------------------------------------------------------------------
  // indices_as_dict
  // ---------------------------------------------------------------------------------

  function ColumnValue(v: IndexView, column: string): Cell
  {
    match column
    case "country" => Text(v.country)
    case "name" => Text(v.name)
    case "full_name" => Text(v.fullName)
    case "symbol" => if v.symbol.Some? then Text(v.symbol.value) else Missing
    case "currency" => if v.currency.Some? then Text(v.currency.value) else Missing
    case "class" => Text(v.indexClass.Name())
    case _ => Text(v.market.Name())
  }

  /** The requested column names of a valid `columns` argument. */
  function ColumnNames(items: seq<PyValue>): seq<string>
  {
    seq(|items|, i requires 0 <= i < |items| => if items[i].PyStr? then items[i].s else "")
  }

  /** Every item names one of the remaining columns (`column in indices.columns.tolist()`). */
  predicate KnownColumns(items: seq<PyValue>)
  {
    forall i :: 0 <= i < |items| ==> items[i].PyStr? && items[i].s in Columns
  }

  /** The columns exported: all remaining ones for `None`, otherwise the listed names. */
  function Requested(columns: PyValue): seq<string>
  {
    if columns.PyList? then ColumnNames(columns.items) else Columns
  }

  function Export(asJson: bool, rows: seq<Record>, columns: seq<string>): Exported
  {
    var dicts := seq(|rows|, i requires 0 <= i < |rows| =>
                   map c | c in columns :: ColumnValue(Drop(rows[i]), c));
    if asJson then Json(dicts) else Dicts(dicts)
  }

  /** The arguments `indices_as_dict` accepts. */
  predicate DictArgsOk(country: PyValue, columns: PyValue, asJson: PyValue)
  {
    CountryArgOk(country) && asJson.PyBool?
    && (columns.PyNone? || (columns.PyList? && KnownColumns(columns.items)))
  }

  /** The error code of the first argument check that fails. */
  function DictArgError(country: PyValue, columns: PyValue, asJson: PyValue): string
  {
    if !CountryArgOk(country) then "ERR#0025"
    else if !asJson.PyBool? then "ERR#0002"
    else if !(columns.PyNone? || columns.PyList?) then "ERR#0020"
    else "ERR#0023"
  }

  /**
   * `indices_as_dict(country, columns, as_json)` as written: the arguments are checked in
   * order, then the whole catalog or the rows of one country are exported. Whether the
   * country is listed is asked of the raw argument, while the rows are selected by the
   * folded one.
   */
  function IndicesAsDict(table: seq<Record>, country: PyValue, columns: PyValue, asJson: PyValue, fold: string -> string)
    : Result<Option<Exported>>
  {
    if !DictArgsOk(country, columns, asJson) then Err(ValueError(DictArgError(country, columns, asJson)))
    else
      var cols := Requested(columns);
      if country.PyNone? then Ok(Some(Export(asJson.b, table, cols)))
      else if country.s in IndexCountriesAsList(Some(table)).value then
        Ok(Some(Export(asJson.b, RowsOf(table, fold(country.s)), cols)))
      else Ok(None)
  }

  /**
   * The same with the listed-country test asked of the folded argument, as
   * `indices_as_df` and `indices_as_list` do.
   */
  function IndicesAsDictFolded(table: seq<Record>, country: PyValue, columns: PyValue, asJson: PyValue, fold: string -> string)
    : Result<Option<Exported>>
  {
    if !DictArgsOk(country, columns, asJson) then Err(ValueError(DictArgError(country, columns, asJson)))
    else
      var cols := Requested(columns);
      if country.PyNone? then Ok(Some(Export(asJson.b, table, cols)))
      else
        var key := fold(country.s);
        if key in IndexCountriesAsList(Some(table)).value then Ok(Some(Export(asJson.b, RowsOf(table, key), cols)))
        else Ok(None)
  }

  /**
   * `indices_as_dict` raises exactly on invalid arguments, with the code of the first check
   * that fails, and the corrected version raises exactly the same errors.
   */
  lemma DictArguments(table: seq<Record>, country: PyValue, columns: PyValue, asJson: PyValue, fold: string -> string)
    ensures IndicesAsDict(table, country, columns, asJson, fold).Err? <==> !DictArgsOk(country, columns, asJson)
    ensures IndicesAsDict(table, country, columns, asJson, fold) == Err(ValueError("ERR#0025")) <==>
              !CountryArgOk(country)
    ensures IndicesAsDict(table, country, columns, asJson, fold) == Err(ValueError("ERR#0002")) <==>
              CountryArgOk(country) && !asJson.PyBool?
    ensures IndicesAsDict(table, country, columns, asJson, fold) == Err(ValueError("ERR#0020")) <==>
              CountryArgOk(country) && asJson.PyBool? && !(columns.PyNone? || columns.PyList?)
    ensures IndicesAsDict(table, country, columns, asJson, fold) == Err(ValueError("ERR#0023")) <==>
              CountryArgOk(country) && asJson.PyBool? && columns.PyList? && !KnownColumns(columns.items)
    ensures IndicesAsDictFolded(table, country, columns, asJson, fold).Err? <==> !DictArgsOk(country, columns, asJson)
    ensures IndicesAsDictFolded(table, country, columns, asJson, fold).Err? ==>
              IndicesAsDictFolded(table, country, columns, asJson, fold) == IndicesAsDict(table, country, columns, asJson, fold)
  {
  }

  /** Reads an exported record back into the row it was made from, if it holds one. */
  function ViewOf(d: map<string, Cell>): Option<IndexView>
  {
    if !(forall c :: c in Columns ==> c in d) then None
    else if !(d["country"].Text? && d["name"].Text? && d["full_name"].Text? && d["class"].Text? && d["market"].Text?) then None
    else
      var c, m := ClassNamed(d["class"].text), MarketNamed(d["market"].text);
      if c.None? || m.None? then None
      else
        Some(IndexView(d["country"].text, d["name"].text, d["full_name"].text,
          if d["symbol"].Text? then Some(d["symbol"].text) else None,
          if d["currency"].Text? then Some(d["currency"].text) else None,
          c.value, m.value))
  }

  /** The record of every column of a row. */
  function Full(v: IndexView): map<string, Cell>
  {
    map c | c in Columns :: ColumnValue(v, c)
  }

  lemma FullNames(v: IndexView)
    ensures forall c :: c in Columns ==> c in Full(v)
    ensures Full(v)["country"] == Text(v.country) && Full(v)["name"] == Text(v.name)
    ensures Full(v)["full_name"] == Text(v.fullName)
  {
  }

  lemma FullCodes(v: IndexView)
    ensures Full(v)["symbol"] == (if v.symbol.Some? then Text(v.symbol.value) else Missing)
    ensures Full(v)["currency"] == (if v.currency.Some? then Text(v.currency.value) else Missing)
    ensures Full(v)["class"] == Text(v.indexClass.Name()) && Full(v)["market"] == Text(v.market.Name())
  {
  }

  lemma FullDecodes(v: IndexView)
    ensures Full(v).Keys == set c | c in Columns
    ensures ViewOf(Full(v)) == Some(v)
  {
    FullNames(v);
    FullCodes(v);
    NamesDecode(v.indexClass, v.market);
    assert Full(v).Keys == set c | c in Columns;
  }

  lemma ExportRowDecodes(asJson: bool, rows: seq<Record>, i: int)
    requires 0 <= i < |rows|
    ensures Export(asJson, rows, Columns).rows[i].Keys == set c | c in Columns
    ensures ViewOf(Export(asJson, rows, Columns).rows[i]) == Some(Drop(rows[i]))
  {
    assert Export(asJson, rows, Columns).rows[i] == Full(Drop(rows[i]));
    FullDecodes(Drop(rows[i]));
  }

  /**
   * Exporting every column loses nothing: one record per selected row, each with exactly
   * the seven columns, and each reads back as the row without `tag` and `id`; the result
   * is JSON exactly when asked for.
   */
  lemma ExportRoundTrip(asJson: bool, rows: seq<Record>)
    ensures |Export(asJson, rows, Columns).rows| == |rows|
    ensures Export(asJson, rows, Columns).Json? <==> asJson
    ensures forall i :: 0 <= i < |rows| ==>
              Export(asJson, rows, Columns).rows[i].Keys == set c | c in Columns
              && ViewOf(Export(asJson, rows, Columns).rows[i]) == Some(Drop(rows[i]))
  {
    forall i | 0 <= i < |rows|
      ensures Export(asJson, rows, Columns).rows[i].Keys == set c | c in Columns
      ensures ViewOf(Export(asJson, rows, Columns).rows[i]) == Some(Drop(rows[i]))
    {
      ExportRowDecodes(asJson, rows, i);
    }
  }

  /**
   * `indices[columns]`: asking for some of the columns gives, for every row, the full
   * record restricted to those columns.
   */
  lemma ExportProjection(asJson: bool, rows: seq<Record>, columns: seq<string>)
    requires forall c :: c in columns ==> c in Columns
    ensures |Export(asJson, rows, columns).rows| == |rows|
    ensures forall i :: 0 <= i < |rows| ==>
              Export(asJson, rows, columns).rows[i] ==
                map c | c in columns :: Export(asJson, rows, Columns).rows[i][c]
  {
  }

  /** With the raw test, a country given with capitals is not found although its rows exist. */
  lemma RawCountryMissed()
    ensures var table := [Record("germany", "DAX", "DAX", "germany-30", "172", None, None, MajorIndices, WorldIndices)];
            IndicesAsDf(table, PyStr("Germany"), AsciiLower).value.Some?
            && IndicesAsDict(table, PyStr("Germany"), PyNone, PyBool(false), AsciiLower) == Ok(None)
  {
    var table := [Record("germany", "DAX", "DAX", "germany-30", "172", None, None, MajorIndices, WorldIndices)];
    assert AsciiLower("Germany") == "germany";
    ListedCountry(table, "germany");
    ListedCountry(table, "Germany");
    assert table[0].country != "Germany";
  }

  /**
   * As written, `indices_as_dict` with valid arguments answers `None` unless some row carries
   * the country exactly as given, and otherwise exports the rows of the folded country.
   */
  lemma RawCountryTest(table: seq<Record>, c: string, columns: PyValue, asJson: bool, fold: string -> string)
    requires columns.PyNone? || (columns.PyList? && KnownColumns(columns.items))
    ensures IndicesAsDict(table, PyStr(c), columns, PyBool(asJson), fold).Ok?
    ensures IndicesAsDict(table, PyStr(c), columns, PyBool(asJson), fold).value.Some? <==>
              exists k :: 0 <= k < |table| && table[k].country == c
    ensures IndicesAsDict(table, PyStr(c), columns, PyBool(asJson), fold).value.Some? ==>
              IndicesAsDict(table, PyStr(c), columns, PyBool(asJson), fold).value.value ==
                Export(asJson, RowsOf(table, fold(c)), Requested(columns))
  {
    ListedCountry(table, c);
  }

  /**
   * With the folded test, `indices_as_dict` finds a country exactly when `indices_as_df`
   * does, and exports, record by record, the requested columns of the rows that
   * `indices_as_df` returns.
   */
  lemma FoldedAgreesWithDf(table: seq<Record>, c: string, columns: PyValue, asJson: bool, fold: string -> string)
    requires columns.PyNone? || (columns.PyList? && KnownColumns(columns.items))
    ensures IndicesAsDictFolded(table, PyStr(c), columns, PyBool(asJson), fold).Ok?
    ensures IndicesAsDictFolded(table, PyStr(c), columns, PyBool(asJson), fold).value.None? <==>
              IndicesAsDf(table, PyStr(c), fold).value.None?
    ensures IndicesAsDictFolded(table, PyStr(c), columns, PyBool(asJson), fold).value.Some? ==>
              var rows := IndicesAsDictFolded(table, PyStr(c), columns, PyBool(asJson), fold).value.value.rows;
              var views := IndicesAsDf(table, PyStr(c), fold).value.value;
              |rows| == |views|
              && (forall i, col :: 0 <= i < |rows| && col in Requested(columns) ==>
                    col in rows[i] && rows[i][col] == ColumnValue(views[i], col))
              && forall d :: d in rows && "country" in d ==> d["country"] == Text(fold(c))
  {
    ListedCountry(table, fold(c));
    var selected := RowsOf(table, fold(c));
    RowsOfSpec(table, fold(c));
    var cols := Requested(columns);
    var e := Export(asJson, selected, cols);
    forall d | d in e.rows && "country" in d ensures d["country"] == Text(fold(c)) {
      var i :| 0 <= i < |e.rows| && e.rows[i] == d;
      assert selected[i] in selected;
    }
  }
}
