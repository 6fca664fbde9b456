/**
 * `retrieve_index_countries` and `retrieve_global_indices_countries`: the country selector
 * of a listing page becomes the country list that `retrieve_indices` walks. Each
 * `<option>` other than the page's own default becomes one entry, in document order; a
 * page that yields no entry raises.
 */
module Countries {
  import opened Outcome
  import opened Text
  import opened Records

  /** An `<option>` of the country selector: its `value` attribute and its text. */
  datatype SelectOption = SelectOption(value: string, text: string)

  /** The page behind the selector: its status code and its options, in document order. */
  datatype OptionsPage = OptionsPage(status: int, options: seq<SelectOption>)

  /** A row of `index_countries.csv`: the listing slug and the folded display name. */
  datatype CountryEntry = CountryEntry(country: string, countryName: string)

  /** The option that stands for the whole listing in each selector. */
  const WorldDefault: string := "/indices/world-indices"
  const GlobalDefault: string := "/indices/global-indices"

  const IndicesSuffix: string := "-indices"
  const GlobalIdPrefix: string := "/indices/global-indices?c_id="

  /** The country slug of an option value: path and suffix removed, dashes to spaces, stripped. */
  function CountrySlug(value: string): string
  {
    Strip(ReplaceAll(ReplaceAll(ReplaceAll(value, IndexPath, ""), IndicesSuffix, ""), "-", " "))
  }

  function CountryEntryOf(o: SelectOption, fold: string -> string): CountryEntry
  {
    CountryEntry(CountrySlug(o.value), fold(Strip(o.text)))
  }

  function GlobalEntryOf(o: SelectOption, fold: string -> string): GlobalCountry
  {
    GlobalCountry(ReplaceAll(o.value, GlobalIdPrefix, ""), fold(Strip(o.text)))
  }

  function WorldEntry(fold: string -> string): SelectOption -> CountryEntry
  {
    o => CountryEntryOf(o, fold)
  }

  function GlobalEntry(fold: string -> string): SelectOption -> GlobalCountry
  {
    o => GlobalEntryOf(o, fold)
  }

  /** The entries a listing loop appends: one per option whose value is not `skip`, in order. */
  function Collect<T>(options: seq<SelectOption>, skip: string, entry: SelectOption -> T): seq<T>
  {
    if options == [] then []
    else
      var init := Collect(options[..|options| - 1], skip, entry);
      var o := options[|options| - 1];
      if o.value != skip then init + [entry(o)] else init
  }

  /** What the loop keeps when it may stop after its first entry. */
  function FirstOrAll<T>(firstOnly: bool, xs: seq<T>): seq<T>
  {
    if firstOnly && xs != [] then xs[..1] else xs
  }

  /** What `retrieve_index_countries` returns for a page. */
  function IndexCountries(page: OptionsPage, fold: string -> string): Result<seq<CountryEntry>>
  {
    if page.status != 200 then Err(ConnectionError(page.status))
    else
      var entries := Collect(page.options, WorldDefault, WorldEntry(fold));
      if entries == [] then Err(RuntimeError("ERR#0035")) else Ok(entries)
  }

  /** What `retrieve_global_indices_countries` returns; test mode keeps only the first entry. */
  function GlobalCountries(page: OptionsPage, fold: string -> string, testMode: bool): Result<seq<GlobalCountry>>
  {
    if page.status != 200 then Err(ConnectionError(page.status))
    else
      var entries := FirstOrAll(testMode, Collect(page.options, GlobalDefault, GlobalEntry(fold)));
      if entries == [] then Err(RuntimeError("ERR#0035")) else Ok(entries)
  }

  /**
   * An entry is listed exactly when some option other than the skipped one gives it, and
   * nothing is listed exactly when every option is the skipped one.
   */
  lemma {:induction false} CollectSpec<T>(options: seq<SelectOption>, skip: string, entry: SelectOption -> T)
    ensures forall e :: e in Collect(options, skip, entry) <==>
              exists k :: 0 <= k < |options| && options[k].value != skip && e == entry(options[k])
    ensures Collect(options, skip, entry) == [] <==>
              forall k :: 0 <= k < |options| ==> options[k].value == skip
  {
    if options != [] {
      var init := options[..|options| - 1];
      CollectSpec(init, skip, entry);
      assert forall k :: 0 <= k < |init| ==> init[k] == options[k];
    }
  }

  /** Scanning a prefix of the options lists a prefix of the entries. */
  lemma {:induction false} CollectPrefix<T>(options: seq<SelectOption>, skip: string, entry: SelectOption -> T, i: nat)
    requires i <= |options|
    ensures Collect(options[..i], skip, entry) <= Collect(options, skip, entry)
    decreases |options| - i
  {
    if i < |options| {
      var n := |options|;
      CollectPrefix(options[..n - 1], skip, entry, i);
      assert options[..n - 1][..i] == options[..i];
    } else {
      assert options[..i] == options;
    }
  }

  /** An option `/indices/<s>-indices` gives the country `s` with dashes as spaces, stripped. */
  lemma CountrySlugOf(s: string)
    requires '/' !in s
    requires forall i :: 0 <= i < |s| ==> !StartsWith((s + IndicesSuffix)[i..], IndicesSuffix)
    ensures CountrySlug(IndexPath + (s + IndicesSuffix)) == Strip(ReplaceAll(s, "-", " "))
  {
    NoPathInside(s);
    RemovePrefix(IndexPath, s + IndicesSuffix);
    SuffixRemoved(s);
  }

  lemma SuffixRemoved(s: string)
    requires forall i :: 0 <= i < |s| ==> !StartsWith((s + IndicesSuffix)[i..], IndicesSuffix)
    ensures ReplaceAll(s + IndicesSuffix, IndicesSuffix, "") == s
  {
    ReplaceAllTrailing(s, IndicesSuffix, "");
    assert s + "" == s;
  }

  lemma NoPathInside(s: string)
    requires '/' !in s
    ensures !Contains(s + IndicesSuffix, IndexPath)
  {
    var tail := s + IndicesSuffix;
    forall i | 0 <= i < |tail| ensures tail[i] != '/' {
      if i < |s| {
        assert tail[i] == s[i];
      } else {
        assert tail[i] == IndicesSuffix[i - |s|];
      }
    }
    if Contains(tail, IndexPath) {
      ContainsHead(tail, IndexPath);
    }
  }

  /** A string that contains `p` contains the first character of `p`. */
  lemma {:induction false} ContainsHead(s: string, p: string)
    requires p != [] && Contains(s, p)
    ensures p[0] in s
    decreases |s|
  {
    if !StartsWith(s, p) {
      ContainsHead(s[1..], p);
    }
  }

  /** An option `/indices/global-indices?c_id=<n>` gives the id `n`. */
  lemma GlobalIdOf(n: string, text: string, fold: string -> string)
    requires !Contains(n, GlobalIdPrefix)
    ensures GlobalEntryOf(SelectOption(GlobalIdPrefix + n, text), fold).id == n
  {
    RemovePrefix(GlobalIdPrefix, n);
  }

  /**
   * The loop over the selector's options: every option whose value is not `skip` appends
   * its entry; with `firstOnly` the loop stops after the first one appended.
   */
  method CollectEntries<T>(options: seq<SelectOption>, skip: string, entry: SelectOption -> T, firstOnly: bool)
    returns (xs: seq<T>)
    ensures xs == FirstOrAll(firstOnly, Collect(options, skip, entry))
  {
    xs := [];
    var i := 0;
    while i < |options|
      invariant 0 <= i <= |options|
      invariant xs == Collect(options[..i], skip, entry)
      invariant firstOnly ==> xs == []
    {
      var o := options[i];
      assert options[..i + 1][..i] == options[..i];
      i := i + 1;
      if o.value != skip {
        xs := xs + [entry(o)];
        if firstOnly {
          CollectPrefix(options, skip, entry, i);
          break;
        }
      }
    }
    if i == |options| {
      assert options[..i] == options;
    }
  }

  /**
   * `retrieve_index_countries`: every option except the default becomes an entry; the
   * page must answer 200 and give at least one entry.
   */
  method RetrieveIndexCountries(page: OptionsPage, fold: string -> string) returns (r: Result<seq<CountryEntry>>)
    ensures r == IndexCountries(page, fold)
  {
    if page.status != 200 {
      return Err(ConnectionError(page.status));
    }
    var countries := CollectEntries(page.options, WorldDefault, WorldEntry(fold), false);
    if |countries| <= 0 {
      return Err(RuntimeError("ERR#0035"));
    }
    return Ok(countries);
  }

  /**
   * `retrieve_global_indices_countries`: as above with the global default skipped and the
   * id taken from the value; in test mode the loop stops after the first entry.
   */
  method RetrieveGlobalIndicesCountries(page: OptionsPage, fold: string -> string, testMode: bool)
    returns (r: Result<seq<GlobalCountry>>)
    ensures r == GlobalCountries(page, fold, testMode)
  {
    if page.status != 200 {
      return Err(ConnectionError(page.status));
    }
    var countries := CollectEntries(page.options, GlobalDefault, GlobalEntry(fold), testMode);
    if |countries| <= 0 {
      return Err(RuntimeError("ERR#0035"));
    }
    return Ok(countries);
  }

  /** The entries of `retrieve_index_countries`, and when it raises for lack of them. */
  lemma IndexCountriesSpec(page: OptionsPage, fold: string -> string)
    requires page.status == 200
    ensures IndexCountries(page, fold) == Err(RuntimeError("ERR#0035")) <==>
              forall k :: 0 <= k < |page.options| ==> page.options[k].value == WorldDefault
    ensures IndexCountries(page, fold).Ok? ==>
              forall e :: e in IndexCountries(page, fold).value <==>
                exists k :: 0 <= k < |page.options| && page.options[k].value != WorldDefault
                            && e == CountryEntryOf(page.options[k], fold)
  {
    CollectSpec(page.options, WorldDefault, WorldEntry(fold));
  }

  /**
   * Test mode changes neither whether `retrieve_global_indices_countries` fails nor how;
   * when it succeeds it keeps exactly the first entry of the full list.
   */
  lemma GlobalTestMode(page: OptionsPage, fold: string -> string)
    ensures GlobalCountries(page, fold, true).Err? <==> GlobalCountries(page, fold, false).Err?
    ensures GlobalCountries(page, fold, true).Err? ==>
              GlobalCountries(page, fold, true) == GlobalCountries(page, fold, false)
    ensures GlobalCountries(page, fold, true).Ok? ==>
              var short, full := GlobalCountries(page, fold, true).value, GlobalCountries(page, fold, false).value;
              |short| == 1 && short <= full
  {
  }

  /** The entries of `retrieve_global_indices_countries`, and when it raises for lack of them. */
  lemma GlobalCountriesSpec(page: OptionsPage, fold: string -> string)
    requires page.status == 200
    ensures GlobalCountries(page, fold, false) == Err(RuntimeError("ERR#0035")) <==>
              forall k :: 0 <= k < |page.options| ==> page.options[k].value == GlobalDefault
    ensures GlobalCountries(page, fold, false).Ok? ==>
              forall g :: g in GlobalCountries(page, fold, false).value <==>
                exists k :: 0 <= k < |page.options| && page.options[k].value != GlobalDefault
                            && g == GlobalEntryOf(page.options[k], fold)
  {
    CollectSpec(page.options, GlobalDefault, GlobalEntry(fold));
  }
}
