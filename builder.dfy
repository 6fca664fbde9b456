/**
 * `retrieve_indices`: three passes over listing pages append one record per index link
 * to a single `results` list, which is then deduplicated by tag and sorted by country.
 *
 * Pass 1 walks the countries of `index_countries.csv` under four filters (market
 * `world_indices`); pass 2 walks the entries of `global_indices_countries.csv` under five
 * filters; pass 3 walks the unfiltered global listing under six filters and takes each
 * row's country from its last flag (both `global_indices`). Every index link also costs
 * one detail-page lookup (`retrieve_index_info`).
 *
 * The network and the resource files are the fields of `Env`. Each loop of the source is a
 * method proved against a recursive function that states what the loop appends.
 */
module Builder {
  import opened Outcome
  import opened Text
  import opened Detail
  import opened Records
  import opened Finalisation

  /** A listing page: its status code and the rows of its table (empty when it has none). */
  datatype Page = Page(status: int, rows: seq<Row>)

  /**
   * What the scraper reads from outside: the country list of pass 1 (absent when
   * `index_countries.csv` is missing), the entries of pass 2, the listing pages of the
   * three passes, the detail page of each tag, and the folding `unidecode(lower(.))`.
   */
  datatype Env = Env(
    indexCountries: Option<seq<string>>,
    globalCountries: seq<GlobalCountry>,
    countryPage: (string, IndexClass) -> Page,
    globalPage: (string, IndexClass) -> Page,
    regionPage: IndexClass -> Page,
    detailPage: string -> DetailPage,
    fold: string -> string)

  /** Where a listing page comes from: a country of pass 1, an entry of pass 2, or pass 3. */
  datatype Listing = CountryListing(country: string) | GlobalListing(entry: GlobalCountry) | RegionListing

  const WorldFilters: seq<IndexClass> := [MajorIndices, PrimarySectors, AdditionalIndices, OtherIndices]
  const GlobalFilters: seq<IndexClass> := [MajorIndices, PrimarySectors, Bonds, AdditionalIndices, OtherIndices]
  const RegionFilters: seq<IndexClass> := GlobalFilters + [Commodities]

  function CountryListings(cs: seq<string>): seq<Listing>
  {
    seq(|cs|, i requires 0 <= i < |cs| => CountryListing(cs[i]))
  }

  function GlobalListings(gs: seq<GlobalCountry>): seq<Listing>
  {
    seq(|gs|, i requires 0 <= i < |gs| => GlobalListing(gs[i]))
  }

  function PageOf(env: Env, l: Listing, c: IndexClass): Page
  {
    match l
    case CountryListing(country) => env.countryPage(country, c)
    case GlobalListing(g) => env.globalPage(g.id, c)
    case RegionListing => env.regionPage(c)
  }

  function MarketOf(l: Listing): Market
  {
    if l.CountryListing? then WorldIndices else GlobalIndices
  }

  /**
   * The `country` of the records of one row. In pass 3 it comes from the last flag of the
   * row; a row without flags leaves the region `None`, and `None.strip()` raises.
   */
  function RowCountry(env: Env, l: Listing, row: Row): Result<string>
  {
    match l
    case CountryListing(country) => Ok(RenameCountry(country))
    case GlobalListing(g) => Ok(g.country)
    case RegionListing =>
      if row.flags == [] then Err(AttributeError)
      else Ok(RegionOf(row.flags[|row.flags| - 1], env.fold))
  }

  /** The record an index link yields, once the details of its page are known. */
  function IndexRecord(a: Anchor, country: string, id: string, d: Detail, c: IndexClass, m: Market): Record
    requires IsIndexLink(a)
  {
    Record(country, NameOf(a.text), FullNameOf(a.title), TagOf(a.href.value), id, d.symbol, d.currency, c, m)
  }

  /** What one anchor appends: nothing, one record, or the error of its detail page. */
  function AnchorRecords(env: Env, a: Anchor, country: string, id: string, c: IndexClass, m: Market): Result<seq<Record>>
  {
    if !IsIndexLink(a) then Ok([])
    else
      match InfoOf(env.detailPage(TagOf(a.href.value)))
      case Err(e) => Err(e)
      case Ok(d) => Ok([IndexRecord(a, country, id, d, c, m)])
  }

  /** What the anchors of one row append, in document order, stopping at the first error. */
  function AnchorsRecords(env: Env, anchors: seq<Anchor>, country: string, id: string, c: IndexClass, m: Market): Result<seq<Record>>
  {
    if anchors == [] then Ok([])
    else Chain(AnchorRecords(env, anchors[0], country, id, c, m), AnchorsRecords(env, anchors[1..], country, id, c, m))
  }

  function RowRecords(env: Env, l: Listing, c: IndexClass, row: Row): Result<seq<Record>>
  {
    match RowCountry(env, l, row)
    case Err(e) => Err(e)
    case Ok(country) => AnchorsRecords(env, row.anchors, country, IdOf(row.id), c, MarketOf(l))
  }

  function RowsRecords(env: Env, l: Listing, c: IndexClass, rows: seq<Row>): Result<seq<Record>>
  {
    if rows == [] then Ok([])
    else Chain(RowRecords(env, l, c, rows[0]), RowsRecords(env, l, c, rows[1..]))
  }

  /** The rows pass 2 reaches in test mode: it stops after the first row of each page. */
  function ScannedRows(testMode: bool, l: Listing, rows: seq<Row>): seq<Row>
  {
    if testMode && l.GlobalListing? && rows != [] then rows[..1] else rows
  }

  /** What one listing page appends; a status other than 200 raises. */
  function PageRecords(env: Env, testMode: bool, l: Listing, c: IndexClass, page: Page): Result<seq<Record>>
  {
    if page.status != 200 then Err(ConnectionError(page.status))
    else RowsRecords(env, l, c, ScannedRows(testMode, l, page.rows))
  }

  /** What the filters of one listing append; pass 3 in test mode stops after the first page with rows. */
  function FiltersRecords(env: Env, testMode: bool, l: Listing, filters: seq<IndexClass>): Result<seq<Record>>
  {
    if filters == [] then Ok([])
    else
      var page := PageOf(env, l, filters[0]);
      var here := PageRecords(env, testMode, l, filters[0], page);
      if testMode && l.RegionListing? && page.rows != [] then here
      else Chain(here, FiltersRecords(env, testMode, l, filters[1..]))
  }

  /** What a pass over several listings appends; in test mode it stops after the first listing. */
  function ListingsRecords(env: Env, testMode: bool, ls: seq<Listing>, filters: seq<IndexClass>): Result<seq<Record>>
  {
    if ls == [] then Ok([])
    else
      var here := FiltersRecords(env, testMode, ls[0], filters);
      if testMode then here
      else Chain(here, ListingsRecords(env, testMode, ls[1..], filters))
  }

  /** The `results` list after the three passes, or the error that ended them. */
  function RawResults(env: Env, testMode: bool): Result<seq<Record>>
  {
    match env.indexCountries
    case None => Err(IOError("ERR#0036"))
    case Some(cs) =>
      Chain(ListingsRecords(env, testMode, CountryListings(cs), WorldFilters),
            Chain(ListingsRecords(env, testMode, GlobalListings(env.globalCountries), GlobalFilters),
                  FiltersRecords(env, testMode, RegionListing, RegionFilters)))
  }

  // ---------------------------------------------------------------------------------
  // What the passes append
  // ---------------------------------------------------------------------------------

  /** The index links among some anchors, in document order. */
  function IndexLinks(anchors: seq<Anchor>): (links: seq<Anchor>)
    ensures forall a :: a in links ==> IsIndexLink(a)
  {
    if anchors == [] then []
    else if IsIndexLink(anchors[0]) then [anchors[0]] + IndexLinks(anchors[1..])
    else IndexLinks(anchors[1..])
  }

  /** An index link whose detail page does not answer 200. */
  predicate LinkFails(env: Env, a: Anchor)
  {
    IsIndexLink(a) && env.detailPage(TagOf(a.href.value)).status != 200
  }

  /**
   * `x` is the record of the index link `a`: its tag is the href without `/indices/`, its
   * name the stripped text, its full name the title without ` (CFD)`, stripped; the row
   * supplies the country and the id, the pass the class and market, and the detail page of
   * the tag the symbol and currency.
   */
  predicate Describes(env: Env, x: Record, a: Anchor, country: string, id: string, c: IndexClass, m: Market)
  {
    IsIndexLink(a) && x.tag == TagOf(a.href.value) && x.name == Strip(a.text)
    && x.fullName == FullNameOf(a.title) && x.country == country && x.id == id
    && x.indexClass == c && x.market == m
    && InfoOf(env.detailPage(x.tag)) == Ok(Detail(x.symbol, x.currency))
  }

  /** The record an index link yields describes it. */
  lemma IndexRecordDescribes(env: Env, a: Anchor, country: string, id: string, c: IndexClass, m: Market)
    requires IsIndexLink(a) && InfoOf(env.detailPage(TagOf(a.href.value))).Ok?
    ensures AnchorRecords(env, a, country, id, c, m).Ok?
    ensures var rs := AnchorRecords(env, a, country, id, c, m).value;
              |rs| == 1 && Describes(env, rs[0], a, country, id, c, m)
  {
  }

  /** The anchors of a row fail exactly when one of their index links has a failing detail page. */
  lemma {:induction false} AnchorsFail(env: Env, anchors: seq<Anchor>, country: string, id: string, c: IndexClass, m: Market)
    ensures AnchorsRecords(env, anchors, country, id, c, m).Err? <==>
              exists k :: 0 <= k < |anchors| && LinkFails(env, anchors[k])
    decreases |anchors|
  {
    if anchors != [] {
      AnchorsFail(env, anchors[1..], country, id, c, m);
      FailsCons(env, anchors);
    }
  }

  /** Some anchor fails exactly when the first one or one of the rest does. */
  lemma FailsCons(env: Env, anchors: seq<Anchor>)
    requires anchors != []
    ensures (exists k :: 0 <= k < |anchors| && LinkFails(env, anchors[k])) <==>
              LinkFails(env, anchors[0]) || exists k :: 0 <= k < |anchors[1..]| && LinkFails(env, anchors[1..][k])
  {
    var rest := anchors[1..];
    if exists k :: 0 <= k < |rest| && LinkFails(env, rest[k]) {
      var k :| 0 <= k < |rest| && LinkFails(env, rest[k]);
      assert LinkFails(env, anchors[k + 1]);
    }
    if exists k :: 0 <= k < |anchors| && LinkFails(env, anchors[k]) {
      var k :| 0 <= k < |anchors| && LinkFails(env, anchors[k]);
      if k > 0 {
        assert LinkFails(env, rest[k - 1]);
      }
    }
  }

  /** `rs` describe `links` position by position. */
  predicate DescribesAll(env: Env, rs: seq<Record>, links: seq<Anchor>, country: string, id: string, c: IndexClass, m: Market)
  {
    |rs| == |links| && forall k :: 0 <= k < |rs| ==> Describes(env, rs[k], links[k], country, id, c, m)
  }

  /** Otherwise they yield one record per index link, in order, each describing its link. */
  lemma {:induction false} AnchorsDescribe(env: Env, anchors: seq<Anchor>, country: string, id: string, c: IndexClass, m: Market)
    requires AnchorsRecords(env, anchors, country, id, c, m).Ok?
    ensures DescribesAll(env, AnchorsRecords(env, anchors, country, id, c, m).value, IndexLinks(anchors), country, id, c, m)
    decreases |anchors|
  {
    if anchors != [] {
      AnchorsDescribe(env, anchors[1..], country, id, c, m);
      if IsIndexLink(anchors[0]) {
        LinkDescribed(env, anchors, country, id, c, m);
      } else {
        NonLinkSkipped(env, anchors, country, id, c, m);
      }
    }
  }

  /** An index link in front adds its record in front. */
  lemma LinkDescribed(env: Env, anchors: seq<Anchor>, country: string, id: string, c: IndexClass, m: Market)
    requires anchors != [] && IsIndexLink(anchors[0]) && AnchorsRecords(env, anchors, country, id, c, m).Ok?
    requires DescribesAll(env, AnchorsRecords(env, anchors[1..], country, id, c, m).value, IndexLinks(anchors[1..]), country, id, c, m)
    ensures DescribesAll(env, AnchorsRecords(env, anchors, country, id, c, m).value, IndexLinks(anchors), country, id, c, m)
  {
    var a, rest := anchors[0], anchors[1..];
    AnchorsCons(env, anchors, country, id, c, m);
    IndexRecordDescribes(env, a, country, id, c, m);
    var x := AnchorRecords(env, a, country, id, c, m).value[0];
    assert IndexLinks(anchors) == [a] + IndexLinks(rest);
    DescribesAllCons(env, x, a, AnchorsRecords(env, rest, country, id, c, m).value, IndexLinks(rest), country, id, c, m);
  }

  /** The records of anchors with one in front: those of the first, then those of the rest. */
  lemma AnchorsCons(env: Env, anchors: seq<Anchor>, country: string, id: string, c: IndexClass, m: Market)
    requires anchors != [] && AnchorsRecords(env, anchors, country, id, c, m).Ok?
    ensures AnchorRecords(env, anchors[0], country, id, c, m).Ok?
    ensures AnchorsRecords(env, anchors[1..], country, id, c, m).Ok?
    ensures AnchorsRecords(env, anchors, country, id, c, m).value
            == AnchorRecords(env, anchors[0], country, id, c, m).value + AnchorsRecords(env, anchors[1..], country, id, c, m).value
  {
  }

  /** A described record in front of described records. */
  lemma DescribesAllCons(env: Env, x: Record, a: Anchor, rs: seq<Record>, links: seq<Anchor>,
                         country: string, id: string, c: IndexClass, m: Market)
    requires Describes(env, x, a, country, id, c, m) && DescribesAll(env, rs, links, country, id, c, m)
    ensures DescribesAll(env, [x] + rs, [a] + links, country, id, c, m)
  {
    var p := (y, b) => Describes(env, y, b, country, id, c, m);
    PairwiseCons(p, x, a, rs, links);
  }

  /** Any other anchor in front adds nothing. */
  lemma NonLinkSkipped(env: Env, anchors: seq<Anchor>, country: string, id: string, c: IndexClass, m: Market)
    requires anchors != [] && !IsIndexLink(anchors[0]) && AnchorsRecords(env, anchors, country, id, c, m).Ok?
    requires DescribesAll(env, AnchorsRecords(env, anchors[1..], country, id, c, m).value, IndexLinks(anchors[1..]), country, id, c, m)
    ensures DescribesAll(env, AnchorsRecords(env, anchors, country, id, c, m).value, IndexLinks(anchors), country, id, c, m)
  {
    var tail := AnchorsRecords(env, anchors[1..], country, id, c, m);
    assert AnchorRecords(env, anchors[0], country, id, c, m) == Ok([]);
    assert [] + tail.value == tail.value;
  }

  /** A relation that holds position by position still does with one more pair in front. */
  lemma PairwiseCons<X, Y>(p: (X, Y) -> bool, x: X, y: Y, xs: seq<X>, ys: seq<Y>)
    requires p(x, y) && |xs| == |ys| && forall k :: 0 <= k < |xs| ==> p(xs[k], ys[k])
    ensures forall k :: 0 <= k < |xs| + 1 ==> p(([x] + xs)[k], ([y] + ys)[k])
  {
    forall k | 0 <= k < |xs| + 1
      ensures p(([x] + xs)[k], ([y] + ys)[k])
    {
      if k > 0 {
        assert ([x] + xs)[k] == xs[k - 1] && ([y] + ys)[k] == ys[k - 1];
      }
    }
  }

  /** `row` has a flag, and `country` is the region of its last one. */
  predicate FlagCountry(env: Env, row: Row, country: string)
  {
    row.flags != [] && country == RegionOf(row.flags[|row.flags| - 1], env.fold)
  }

  /**
   * The country a listing gives its records under class `c`: pass 3 takes it from the last
   * flag of one of the rows of the page of `c`.
   */
  ghost predicate CountryFits(env: Env, l: Listing, c: IndexClass, country: string)
  {
    match l
    case CountryListing(name) => country == RenameCountry(name)
    case GlobalListing(g) => country == g.country
    case RegionListing => exists row :: row in PageOf(env, l, c).rows && FlagCountry(env, row, country)
  }

  /** `x` could come from listing `l` under one of `filters`. */
  ghost predicate FromListing(env: Env, l: Listing, filters: seq<IndexClass>, x: Record)
  {
    x.indexClass in filters && x.market == MarketOf(l) && CountryFits(env, l, x.indexClass, x.country)
  }

  /** `x` could come from one of `rows` of the page of `c` of listing `l`. */
  ghost predicate FromRows(env: Env, l: Listing, c: IndexClass, rows: seq<Row>, x: Record)
  {
    x.indexClass == c && x.market == MarketOf(l) && exists row :: row in rows && RowCountry(env, l, row) == Ok(x.country)
  }

  /**
   * The records of one row share the row's id, the page's class, the pass's market and the
   * row's country; in pass 3 that country is the region of the row's last flag.
   */
  lemma RowYields(env: Env, l: Listing, c: IndexClass, row: Row)
    ensures RowRecords(env, l, c, row).Ok? ==>
              forall x :: x in RowRecords(env, l, c, row).value ==>
                x.indexClass == c && x.id == IdOf(row.id) && x.market == MarketOf(l)
                && RowCountry(env, l, row) == Ok(x.country)
    ensures l.RegionListing? && RowRecords(env, l, c, row).Ok? ==>
              row.flags != []
              && forall x :: x in RowRecords(env, l, c, row).value ==>
                   x.country == RegionOf(row.flags[|row.flags| - 1], env.fold)
  {
    var rc := RowCountry(env, l, row);
    if rc.Ok? {
      var m := MarketOf(l);
      var r := AnchorsRecords(env, row.anchors, rc.value, IdOf(row.id), c, m);
      if r.Ok? {
        AnchorsDescribe(env, row.anchors, rc.value, IdOf(row.id), c, m);
        forall x | x in r.value
          ensures x.indexClass == c && x.id == IdOf(row.id) && x.market == MarketOf(l)
        {
          var k :| 0 <= k < |r.value| && r.value[k] == x;
          assert Describes(env, r.value[k], IndexLinks(row.anchors)[k], rc.value, IdOf(row.id), c, m);
          if l.RegionListing? {
            assert x.country == RegionOf(row.flags[|row.flags| - 1], env.fold);
          }
        }
      }
    }
  }

  lemma {:induction false} RowsYield(env: Env, l: Listing, c: IndexClass, rows: seq<Row>)
    ensures RowsRecords(env, l, c, rows).Ok? ==>
              forall x :: x in RowsRecords(env, l, c, rows).value ==> FromRows(env, l, c, rows, x)
    decreases |rows|
  {
    if rows != [] {
      RowYields(env, l, c, rows[0]);
      RowsYield(env, l, c, rows[1..]);
      var r := RowsRecords(env, l, c, rows);
      if r.Ok? {
        forall x | x in r.value
          ensures FromRows(env, l, c, rows, x)
        {
          if x in RowRecords(env, l, c, rows[0]).value {
            assert rows[0] in rows;
          } else {
            var row :| row in rows[1..] && RowCountry(env, l, row) == Ok(x.country);
            assert row in rows;
          }
        }
      }
    }
  }

  /** A record from a scanned row of a page fits the listing's country under that page's class. */
  lemma ScannedRowFits(env: Env, testMode: bool, l: Listing, c: IndexClass, x: Record)
    requires FromRows(env, l, c, ScannedRows(testMode, l, PageOf(env, l, c).rows), x)
    ensures CountryFits(env, l, c, x.country)
  {
    var rows := PageOf(env, l, c).rows;
    var row :| row in ScannedRows(testMode, l, rows) && RowCountry(env, l, row) == Ok(x.country);
    assert row in rows;
  }

  lemma {:induction false} FiltersYield(env: Env, testMode: bool, l: Listing, filters: seq<IndexClass>)
    ensures FiltersRecords(env, testMode, l, filters).Ok? ==>
              forall x :: x in FiltersRecords(env, testMode, l, filters).value ==> FromListing(env, l, filters, x)
    decreases |filters|
  {
    if filters != [] {
      var c := filters[0];
      var page := PageOf(env, l, c);
      var scanned := ScannedRows(testMode, l, page.rows);
      RowsYield(env, l, c, scanned);
      FiltersYield(env, testMode, l, filters[1..]);
      var here := RowsRecords(env, l, c, scanned);
      if here.Ok? {
        forall x | x in here.value
          ensures FromListing(env, l, filters, x)
        {
          ScannedRowFits(env, testMode, l, c, x);
        }
      }
    }
  }

  /** Every record a pass appends comes from one of its listings under one of its filters. */
  lemma {:induction false} ListingsYield(env: Env, testMode: bool, ls: seq<Listing>, filters: seq<IndexClass>)
    ensures ListingsRecords(env, testMode, ls, filters).Ok? ==>
              forall x :: x in ListingsRecords(env, testMode, ls, filters).value ==>
                exists l :: l in ls && FromListing(env, l, filters, x)
    decreases |ls|
  {
    if ls != [] {
      FiltersYield(env, testMode, ls[0], filters);
      ListingsYield(env, testMode, ls[1..], filters);
      assert forall l :: l in ls[1..] ==> l in ls;
    }
  }

  /** Where a record of the raw results can come from: one of the three passes. */
  ghost predicate Origin(env: Env, cs: seq<string>, x: Record)
  {
    (x.market == WorldIndices && x.indexClass in WorldFilters
     && exists name :: name in cs && x.country == RenameCountry(name))
    || (x.market == GlobalIndices && x.indexClass in GlobalFilters
        && exists g :: g in env.globalCountries && x.country == g.country)
    || (x.market == GlobalIndices && x.indexClass in RegionFilters
        && exists row :: row in env.regionPage(x.indexClass).rows && FlagCountry(env, row, x.country))
  }

  /** Pass 1 appends records of market `world_indices` whose country is a listed country, renamed. */
  lemma WorldPass(env: Env, testMode: bool, cs: seq<string>)
    ensures var p := ListingsRecords(env, testMode, CountryListings(cs), WorldFilters);
              p.Ok? ==> forall x :: x in p.value ==>
                x.market == WorldIndices && x.indexClass in WorldFilters
                && exists name :: name in cs && x.country == RenameCountry(name)
  {
    var ls := CountryListings(cs);
    var p := ListingsRecords(env, testMode, ls, WorldFilters);
    ListingsYield(env, testMode, ls, WorldFilters);
    if p.Ok? {
      forall x | x in p.value
        ensures exists name :: name in cs && x.country == RenameCountry(name)
      {
        var l :| l in ls && FromListing(env, l, WorldFilters, x);
        var i :| 0 <= i < |ls| && ls[i] == l;
        assert cs[i] in cs && x.country == RenameCountry(cs[i]);
      }
    }
  }

  /** Pass 2 appends records of market `global_indices` whose country is that of a listed entry. */
  lemma GlobalPass(env: Env, testMode: bool)
    ensures var p := ListingsRecords(env, testMode, GlobalListings(env.globalCountries), GlobalFilters);
              p.Ok? ==> forall x :: x in p.value ==>
                x.market == GlobalIndices && x.indexClass in GlobalFilters
                && exists g :: g in env.globalCountries && x.country == g.country
  {
    var gs := env.globalCountries;
    var ls := GlobalListings(gs);
    var p := ListingsRecords(env, testMode, ls, GlobalFilters);
    ListingsYield(env, testMode, ls, GlobalFilters);
    if p.Ok? {
      forall x | x in p.value
        ensures exists g :: g in gs && x.country == g.country
      {
        var l :| l in ls && FromListing(env, l, GlobalFilters, x);
        var i :| 0 <= i < |ls| && ls[i] == l;
        assert gs[i] in gs && x.country == gs[i].country;
      }
    }
  }

  /**
   * Pass 3 appends records of market `global_indices` whose country is the region of the
   * last flag of a row of the pass-3 page of their class.
   */
  lemma RegionPass(env: Env, testMode: bool)
    ensures var p := FiltersRecords(env, testMode, RegionListing, RegionFilters);
              p.Ok? ==> forall x :: x in p.value ==>
                x.market == GlobalIndices && x.indexClass in RegionFilters
                && exists row :: row in env.regionPage(x.indexClass).rows && FlagCountry(env, row, x.country)
  {
    FiltersYield(env, testMode, RegionListing, RegionFilters);
  }

  /** Every record of the raw results comes from one of the three passes. */
  lemma RawResultsOrigin(env: Env, testMode: bool)
    ensures RawResults(env, testMode).Ok? ==>
              env.indexCountries.Some?
              && forall x :: x in RawResults(env, testMode).value ==> Origin(env, env.indexCountries.value, x)
  {
    if env.indexCountries.Some? {
      var cs := env.indexCountries.value;
      WorldPass(env, testMode, cs);
      GlobalPass(env, testMode);
      RegionPass(env, testMode);
    }
  }

  /** Test mode changes nothing within one country listing of pass 1. */
  lemma {:induction false} CountryFiltersIgnoreTestMode(env: Env, name: string, filters: seq<IndexClass>)
    ensures FiltersRecords(env, true, CountryListing(name), filters)
            == FiltersRecords(env, false, CountryListing(name), filters)
    decreases |filters|
  {
    if filters != [] {
      CountryFiltersIgnoreTestMode(env, name, filters[1..]);
    }
  }

  /** Pass 1 in test mode stops after the first country: it appends a prefix of the full pass. */
  lemma WorldTestModePrefix(env: Env, cs: seq<string>)
    requires ListingsRecords(env, false, CountryListings(cs), WorldFilters).Ok?
    ensures ListingsRecords(env, true, CountryListings(cs), WorldFilters).Ok?
    ensures ListingsRecords(env, true, CountryListings(cs), WorldFilters).value
            <= ListingsRecords(env, false, CountryListings(cs), WorldFilters).value
  {
    if cs != [] {
      CountryFiltersIgnoreTestMode(env, cs[0], WorldFilters);
    }
  }

  // ---------------------------------------------------------------------------------
  // The loops of `retrieve_indices`
  // ---------------------------------------------------------------------------------

  /** `for flag in flags: region = flag.get('title')`: the region is the last title, if any. */
  method LastFlag(flags: seq<string>) returns (region: Option<string>)
    ensures region.None? <==> flags == []
    ensures region.Some? ==> region.value == flags[|flags| - 1]
  {
    region := None;
    for i := 0 to |flags|
      invariant region.None? <==> i == 0
      invariant region.Some? ==> region.value == flags[i - 1]
    {
      region := Some(flags[i]);
    }
  }

  /** The loop over the anchors of one row, appending to `results`. */
  method ScanAnchors(env: Env, anchors: seq<Anchor>, country: string, id: string, c: IndexClass, m: Market, results: seq<Record>)
    returns (r: Result<seq<Record>>)
    ensures r == Then(results, AnchorsRecords(env, anchors, country, id, c, m))
  {
    var acc := results;
    for i := 0 to |anchors|
      invariant Then(acc, AnchorsRecords(env, anchors[i..], country, id, c, m))
                == Then(results, AnchorsRecords(env, anchors, country, id, c, m))
    {
      var a := anchors[i];
      assert anchors[i..][1..] == anchors[i + 1..];
      ThenChain(acc, AnchorRecords(env, a, country, id, c, m), AnchorsRecords(env, anchors[i + 1..], country, id, c, m));
      if IsIndexLink(a) {
        var tag := TagOf(a.href.value);
        var info := RetrieveIndexInfo(env.detailPage(tag));
        if info.Err? {
          return Err(info.error);
        }
        acc := acc + [IndexRecord(a, country, id, info.value, c, m)];
      } else {
        assert acc + [] == acc;
      }
    }
    assert AnchorsRecords(env, anchors[|anchors|..], country, id, c, m) == Ok([]);
    assert acc + [] == acc;
    return Ok(acc);
  }

  /** One row: its id, its country (from its flags in pass 3), then its anchors. */
  method ScanRow(env: Env, l: Listing, c: IndexClass, row: Row, results: seq<Record>) returns (r: Result<seq<Record>>)
    ensures r == Then(results, RowRecords(env, l, c, row))
  {
    var id := IdOf(row.id);
    var country: string;
    match l {
      case CountryListing(name) =>
        country := RenameCountry(name);
      case GlobalListing(g) =>
        country := g.country;
      case RegionListing =>
        var region := LastFlag(row.flags);
        if region.None? {
          return Err(AttributeError);
        }
        country := RegionOf(region.value, env.fold);
    }
    assert RowCountry(env, l, row) == Ok(country);
    r := ScanAnchors(env, row.anchors, country, id, c, MarketOf(l), results);
  }

  /** One listing page: its status is checked, then its rows are scanned (pass 2 in test mode stops after one). */
  method ScanPage(env: Env, testMode: bool, l: Listing, c: IndexClass, page: Page, results: seq<Record>)
    returns (r: Result<seq<Record>>)
    ensures r == Then(results, PageRecords(env, testMode, l, c, page))
  {
    if page.status != 200 {
      return Err(ConnectionError(page.status));
    }
    ghost var scanned := ScannedRows(testMode, l, page.rows);
    var acc := results;
    var i := 0;
    while i < |page.rows|
      invariant 0 <= i <= |scanned| && (testMode && l.GlobalListing? ==> i == 0)
      invariant scanned[..] == page.rows[..|scanned|]
      invariant Then(acc, RowsRecords(env, l, c, scanned[i..])) == Then(results, RowsRecords(env, l, c, scanned))
    {
      assert scanned[i..][1..] == scanned[i + 1..];
      var row := page.rows[i];
      assert row == scanned[i];
      ThenChain(acc, RowRecords(env, l, c, row), RowsRecords(env, l, c, scanned[i + 1..]));
      var rr := ScanRow(env, l, c, row, acc);
      if rr.Err? {
        return rr;
      }
      acc := rr.value;
      i := i + 1;
      if testMode && l.GlobalListing? {
        break;
      }
    }
    assert scanned[i..] == [] && acc + [] == acc;
    return Ok(acc);
  }

  /** The filters of one listing; pass 3 in test mode stops after the first page with rows. */
  method ScanFilters(env: Env, testMode: bool, l: Listing, filters: seq<IndexClass>, results: seq<Record>)
    returns (r: Result<seq<Record>>)
    ensures r == Then(results, FiltersRecords(env, testMode, l, filters))
  {
    var acc := results;
    var k := 0;
    while k < |filters|
      invariant 0 <= k <= |filters|
      invariant Then(acc, FiltersRecords(env, testMode, l, filters[k..])) == Then(results, FiltersRecords(env, testMode, l, filters))
    {
      var c := filters[k];
      assert filters[k..][1..] == filters[k + 1..];
      var page := PageOf(env, l, c);
      var here := PageRecords(env, testMode, l, c, page);
      ThenChain(acc, here, FiltersRecords(env, testMode, l, filters[k + 1..]));
      var pr := ScanPage(env, testMode, l, c, page, acc);
      if pr.Err? {
        return pr;
      }
      acc := pr.value;
      if testMode && l.RegionListing? && page.rows != [] {
        // the `break`: nothing follows the loop
        assert Ok(acc) == Then(results, FiltersRecords(env, testMode, l, filters));
        return Ok(acc);
      }
      k := k + 1;
    }
    assert filters[k..] == [] && acc + [] == acc;
    return Ok(acc);
  }

  /** The listings of pass 1 or pass 2; in test mode only the first is scanned. */
  method ScanListings(env: Env, testMode: bool, ls: seq<Listing>, filters: seq<IndexClass>, results: seq<Record>)
    returns (r: Result<seq<Record>>)
    ensures r == Then(results, ListingsRecords(env, testMode, ls, filters))
  {
    var acc := results;
    var j := 0;
    while j < |ls|
      invariant 0 <= j <= |ls|
      invariant Then(acc, ListingsRecords(env, testMode, ls[j..], filters)) == Then(results, ListingsRecords(env, testMode, ls, filters))
    {
      assert ls[j..][1..] == ls[j + 1..];
      var here := FiltersRecords(env, testMode, ls[j], filters);
      ThenChain(acc, here, ListingsRecords(env, testMode, ls[j + 1..], filters));
      var fr := ScanFilters(env, testMode, ls[j], filters, acc);
      if fr.Err? {
        return fr;
      }
      acc := fr.value;
      if testMode {
        // the `break`: nothing follows the loop
        assert Ok(acc) == Then(results, ListingsRecords(env, testMode, ls, filters));
        return Ok(acc);
      }
      j := j + 1;
    }
    assert ls[j..] == [] && acc + [] == acc;
    return Ok(acc);
  }

  /**
   * `retrieve_indices(test_mode)`: the three passes append to one list, which is then
   * finalised; the first error ends the run. The table has distinct tags, one row per
   * accumulated tag (the first one met), and countries in order.
   */
  method RetrieveIndices(env: Env, testMode: bool) returns (r: Result<seq<Record>>)
    ensures RawResults(env, testMode).Err? ==> r == RawResults(env, testMode)
    ensures RawResults(env, testMode).Ok? ==> r == Ok(Finalise(RawResults(env, testMode).value))
    ensures r.Ok? ==> TagsDistinct(r.value) && SortedByCountry(r.value)
                      && Tags(r.value) == Tags(RawResults(env, testMode).value)
  {
    if env.indexCountries.None? {
      return Err(IOError("ERR#0036"));
    }
    var cs := env.indexCountries.value;
    ghost var world := ListingsRecords(env, testMode, CountryListings(cs), WorldFilters);
    ghost var global := ListingsRecords(env, testMode, GlobalListings(env.globalCountries), GlobalFilters);
    ghost var region := FiltersRecords(env, testMode, RegionListing, RegionFilters);
    var results: seq<Record> := [];
    var r1 := ScanListings(env, testMode, CountryListings(cs), WorldFilters, results);
    if r1.Err? {
      return r1;
    }
    assert r1.value == world.value;
    results := r1.value;
    var r2 := ScanListings(env, testMode, GlobalListings(env.globalCountries), GlobalFilters, results);
    if r2.Err? {
      return r2;
    }
    results := r2.value;
    var r3 := ScanFilters(env, testMode, RegionListing, RegionFilters, results);
    ThenChain(world.value, global, region);
    if r3.Err? {
      return r3;
    }
    results := r3.value;
    var table := FinaliseTable(results);
    return Ok(table);
  }
}
