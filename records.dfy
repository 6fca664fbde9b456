/**
 * The rows of the index catalog and the field cleanups `retrieve_indices` applies to the
 * listing pages it scrapes. A listing row is abstracted to its `id` attribute, its
 * anchors and the titles of its flag spans, in document order.
 */
module Records {
  import opened Outcome
  import opened Text

  /** The `class` column: which listing filter a record was found under. */
  datatype IndexClass = MajorIndices | PrimarySectors | AdditionalIndices | OtherIndices | Bonds | Commodities
  {
    function Name(): string
    {
      match this
      case MajorIndices => "major_indices"
      case PrimarySectors => "primary_sectors"
      case AdditionalIndices => "additional_indices"
      case OtherIndices => "other_indices"
      case Bonds => "bonds"
      case Commodities => "commodities"
    }
  }

  /** The `market` column: which listing family a record was found in. */
  datatype Market = WorldIndices | GlobalIndices
  {
    function Name(): string
    {
      match this
      case WorldIndices => "world_indices"
      case GlobalIndices => "global_indices"
    }
  }

  /** The class a `class` cell names, if any. */
  function ClassNamed(n: string): Option<IndexClass>
  {
    match n
    case "major_indices" => Some(MajorIndices)
    case "primary_sectors" => Some(PrimarySectors)
    case "additional_indices" => Some(AdditionalIndices)
    case "other_indices" => Some(OtherIndices)
    case "bonds" => Some(Bonds)
    case "commodities" => Some(Commodities)
    case _ => None
  }

  /** The market a `market` cell names, if any. */
  function MarketNamed(n: string): Option<Market>
  {
    match n
    case "world_indices" => Some(WorldIndices)
    case "global_indices" => Some(GlobalIndices)
    case _ => None
  }

  /** The names written to the `class` and `market` columns read back as what they name. */
  lemma NamesDecode(c: IndexClass, m: Market)
    ensures ClassNamed(c.Name()) == Some(c)
    ensures MarketNamed(m.Name()) == Some(m)
  {
  }

  /** One catalog row, with the columns of `indices.csv`. */
  datatype Record = Record(
    country: string,
    name: string,
    fullName: string,
    tag: string,
    id: string,
    symbol: Option<string>,
    currency: Option<string>,
    indexClass: IndexClass,
    market: Market)

  /** An `<a>` element of a listing row: its `href` (possibly absent), `title` and text. */
  datatype Anchor = Anchor(href: Option<string>, title: string, text: string)

  /** A `<tr>` of a listing table: its `id`, its anchors and the titles of its flags. */
  datatype Row = Row(id: string, anchors: seq<Anchor>, flags: seq<string>)

  /** A row of `global_indices_countries.csv`. */
  datatype GlobalCountry = GlobalCountry(id: string, country: string)

  const IndexPath: string := "/indices/"
  const CfdSuffix: string := " (CFD)"
  const PairPrefix: string := "pair_"

  /** Only anchors whose `href` contains `/indices/` yield a record; `str(None)` never does. */
  predicate IsIndexLink(a: Anchor)
  {
    a.href.Some? && Contains(a.href.value, IndexPath)
  }

  function TagOf(href: string): string
  {
    ReplaceAll(href, IndexPath, "")
  }

  function FullNameOf(title: string): string
  {
    Strip(ReplaceAll(title, CfdSuffix, ""))
  }

  function NameOf(text: string): string
  {
    Strip(text)
  }

  function IdOf(rowId: string): string
  {
    ReplaceAll(rowId, PairPrefix, "")
  }

  /** The country of a record of the per-country listings: two short names are expanded. */
  function RenameCountry(country: string): string
  {
    if country == "uk" then "united kingdom"
    else if country == "usa" then "united states"
    else country
  }

  /**
   * The country of a record of the unfiltered global listing, from the title of the row's
   * last flag; `fold` is `unidecode(lower(.))`.
   */
  function RegionOf(title: string, fold: string -> string): string
  {
    if title == "" then "world"
    else if title == "Euro Zone" then "euro zone"
    else fold(Strip(title))
  }

  /** A link `/indices/<slug>` is an index link and its tag is the slug. */
  lemma IndexLinkTag(slug: string, title: string, text: string)
    requires !Contains(slug, IndexPath)
    ensures IsIndexLink(Anchor(Some(IndexPath + slug), title, text))
    ensures TagOf(IndexPath + slug) == slug
  {
    ContainsPrefix(IndexPath, slug);
    RemovePrefix(IndexPath, slug);
  }

  /** A row id `pair_<n>` gives the id `n`. */
  lemma PairId(n: string)
    requires !Contains(n, PairPrefix)
    ensures IdOf(PairPrefix + n) == n
  {
    RemovePrefix(PairPrefix, n);
  }

  /**
   * A title `<base> (CFD)` gives the full name `strip(<base>)` when no ` (CFD)` starts
   * inside `base` (so `DAX (EUR) (CFD)` gives `DAX (EUR)`, while `A (CFD) (CFD)` gives `A`).
   */
  lemma CfdTitle(base: string)
    requires forall i :: 0 <= i < |base| ==> !StartsWith((base + CfdSuffix)[i..], CfdSuffix)
    ensures FullNameOf(base + CfdSuffix) == Strip(base)
  {
    ReplaceAllTrailing(base, CfdSuffix, "");
    assert base + "" == base;
  }
}
