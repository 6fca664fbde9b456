/**
 * The last step of `retrieve_indices`: the accumulated records become a table from which
 * later rows with an already seen `tag` are dropped (`drop_duplicates(subset="tag",
 * keep='first')`) and which is then ordered by `country` (`sort_values('country')`).
 * The sort here is a reference insertion sort: pandas' own algorithm is not stable, so
 * only its outcome (non-decreasing countries, same rows) is stated.
 */
module Finalisation {
  import opened Text
  import opened Records

  function Tags(rs: seq<Record>): set<string>
  {
    set x | x in rs :: x.tag
  }

  predicate TagsDistinct(rs: seq<Record>)
  {
    forall i, j :: 0 <= i < j < |rs| ==> rs[i].tag != rs[j].tag
  }

  /** `x` is the first row of `rs` that carries the tag of `x`. */
  predicate FirstOfTag(rs: seq<Record>, x: Record)
  {
    exists i :: 0 <= i < |rs| && rs[i] == x && forall j :: 0 <= j < i ==> rs[j].tag != x.tag
  }

  /** Each adjacent pair of rows is ordered by country, as Python compares strings. */
  predicate SortedByCountry(rs: seq<Record>)
  {
    forall i :: 0 <= i < |rs| - 1 ==> StrLe(rs[i].country, rs[i + 1].country)
  }

  /**
   * `drop_duplicates(subset="tag", keep='first')`: the tags of the result are pairwise
   * distinct, every tag of the input is kept, and each kept row is the first input row
   * with its tag.
   */
  function DedupByTag(rs: seq<Record>): (out: seq<Record>)
    ensures TagsDistinct(out)
    ensures Tags(out) == Tags(rs)
    ensures forall x :: x in out ==> FirstOfTag(rs, x)
  {
    if rs == [] then []
    else
      var init, last := rs[..|rs| - 1], rs[|rs| - 1];
      var d := DedupByTag(init);
      assert rs == init + [last];
      FirstOfTagKept(init, last);
      if last.tag in Tags(d) then d
      else
        TagsSnoc(d, last);
        DistinctSnoc(d, last);
        FirstOfTagLast(init, last);
        d + [last]
  }

  /** A row that is first of its tag stays so when a row is added at the end. */
  lemma FirstOfTagKept(init: seq<Record>, last: Record)
    ensures forall x :: FirstOfTag(init, x) ==> FirstOfTag(init + [last], x)
  {
    var rs := init + [last];
    forall x | FirstOfTag(init, x) ensures FirstOfTag(rs, x) {
      var i :| 0 <= i < |init| && init[i] == x && forall j :: 0 <= j < i ==> init[j].tag != x.tag;
      assert rs[i] == x;
      assert forall j :: 0 <= j < i ==> rs[j] == init[j];
    }
  }

  /** A row added at the end with a new tag is the first of its tag. */
  lemma FirstOfTagLast(init: seq<Record>, last: Record)
    requires last.tag !in Tags(init)
    ensures FirstOfTag(init + [last], last)
  {
    var rs := init + [last];
    assert rs[|init|] == last;
    forall j | 0 <= j < |init| ensures rs[j].tag != last.tag {
      assert rs[j] == init[j] && init[j] in init;
    }
  }

  /** A row added at the end with a new tag keeps tags distinct. */
  lemma DistinctSnoc(d: seq<Record>, x: Record)
    requires TagsDistinct(d) && x.tag !in Tags(d)
    ensures TagsDistinct(d + [x])
  {
    var t := d + [x];
    forall i, j | 0 <= i < j < |t| ensures t[i].tag != t[j].tag {
      assert t[i] == d[i] && d[i] in d;
      if j < |d| {
        assert t[j] == d[j];
      }
    }
  }

  function InsertByCountry(x: Record, s: seq<Record>): (r: seq<Record>)
    requires SortedByCountry(s)
    ensures SortedByCountry(r)
    ensures multiset(r) == multiset(s) + multiset{x}
    ensures r != [] && (r[0] == x || (s != [] && r[0] == s[0]))
  {
    if s == [] || StrLe(x.country, s[0].country) then
      SortedCons(x, s);
      [x] + s
    else
      StrLeTotal(x.country, s[0].country);
      var r := InsertByCountry(x, s[1..]);
      assert s == [s[0]] + s[1..];
      SortedCons(s[0], r);
      [s[0]] + r
  }

  /** A row in front of a sorted table whose first country it does not exceed. */
  lemma SortedCons(y: Record, r: seq<Record>)
    requires SortedByCountry(r) && (r != [] ==> StrLe(y.country, r[0].country))
    ensures SortedByCountry([y] + r)
  {
    var t := [y] + r;
    forall i | 0 <= i < |t| - 1 ensures StrLe(t[i].country, t[i + 1].country) {
      if i > 0 {
        assert t[i] == r[i - 1] && t[i + 1] == r[i];
      }
    }
  }

  /** A reference sort: non-decreasing by country and a permutation of its input. */
  function SortByCountry(s: seq<Record>): (r: seq<Record>)
    ensures SortedByCountry(r)
    ensures multiset(r) == multiset(s)
  {
    if s == [] then []
    else
      assert s == [s[0]] + s[1..];
      InsertByCountry(s[0], SortByCountry(s[1..]))
  }

  /** The tags of a table with one row in front. */
  lemma TagsCons(x: Record, s: seq<Record>)
    ensures Tags([x] + s) == {x.tag} + Tags(s)
  {
    var t := [x] + s;
    forall y | y in t ensures y == x || y in s {
      var k :| 0 <= k < |t| && t[k] == y;
      if k > 0 {
        assert s[k - 1] == y;
      }
    }
    assert forall y :: y in s ==> y in t;
  }

  /** A table with one row in front has distinct tags exactly when the rest does and lacks that row's tag. */
  lemma DistinctCons(x: Record, s: seq<Record>)
    ensures TagsDistinct([x] + s) <==> TagsDistinct(s) && x.tag !in Tags(s)
  {
    var t := [x] + s;
    assert forall k :: 0 <= k < |s| ==> t[k + 1] == s[k];
    if TagsDistinct(s) && x.tag !in Tags(s) {
      forall i, j | 0 <= i < j < |t| ensures t[i].tag != t[j].tag {
        assert t[j] == s[j - 1];
        if i == 0 {
          assert s[j - 1] in s;
        } else {
          assert t[i] == s[i - 1];
        }
      }
    }
    if TagsDistinct(t) {
      forall y | y in s ensures y.tag != x.tag {
        var k :| 0 <= k < |s| && s[k] == y;
        assert t[0] == x && t[k + 1] == y;
        assert t[0].tag != t[k + 1].tag;
      }
    }
  }

  /** Inserting a row adds its tag, and keeps tags distinct when that tag was absent. */
  lemma {:induction false} InsertDistinct(x: Record, s: seq<Record>)
    requires SortedByCountry(s)
    ensures Tags(InsertByCountry(x, s)) == Tags(s) + {x.tag}
    ensures TagsDistinct(s) && x.tag !in Tags(s) ==> TagsDistinct(InsertByCountry(x, s))
    decreases |s|
  {
    if s == [] || StrLe(x.country, s[0].country) {
      TagsCons(x, s);
      DistinctCons(x, s);
    } else {
      var s' := s[1..];
      var ins := InsertByCountry(x, s');
      assert s == [s[0]] + s';
      assert InsertByCountry(x, s) == [s[0]] + ins;
      InsertDistinct(x, s');
      InsertBehind(x, s[0], s', ins);
    }
  }

  /** The step of `InsertDistinct` where the row goes behind the first one. */
  lemma InsertBehind(x: Record, y: Record, s: seq<Record>, ins: seq<Record>)
    requires Tags(ins) == Tags(s) + {x.tag}
    requires TagsDistinct(s) && x.tag !in Tags(s) ==> TagsDistinct(ins)
    ensures Tags([y] + ins) == Tags([y] + s) + {x.tag}
    ensures TagsDistinct([y] + s) && x.tag !in Tags([y] + s) ==> TagsDistinct([y] + ins)
  {
    TagsCons(y, s);
    DistinctCons(y, s);
    TagsCons(y, ins);
    DistinctCons(y, ins);
  }

  /** Sorting keeps the tags, and keeps them distinct. */
  lemma {:induction false} SortDistinct(s: seq<Record>)
    ensures Tags(SortByCountry(s)) == Tags(s)
    ensures TagsDistinct(s) ==> TagsDistinct(SortByCountry(s))
    decreases |s|
  {
    if s != [] {
      var s' := s[1..];
      assert s == [s[0]] + s';
      SortDistinct(s');
      InsertDistinct(s[0], SortByCountry(s'));
      TagsCons(s[0], s');
      DistinctCons(s[0], s');
    }
  }

  /** Non-decreasing adjacent pairs give a table ordered between any two rows. */
  lemma {:induction false} SortedAllPairs(rs: seq<Record>, i: nat, j: nat)
    requires SortedByCountry(rs) && i <= j < |rs|
    ensures StrLe(rs[i].country, rs[j].country)
    decreases j - i
  {
    if i == j {
      StrLeReflexive(rs[i].country);
    } else {
      SortedAllPairs(rs, i + 1, j);
      StrLeTransitive(rs[i].country, rs[i + 1].country, rs[j].country);
    }
  }

  lemma {:induction false} StrLeReflexive(a: string)
    ensures StrLe(a, a)
    decreases |a|
  {
    if a != [] {
      StrLeReflexive(a[1..]);
    }
  }

  /**
   * The finished table: tags pairwise distinct, every accumulated tag present, each row
   * the first accumulated row with its tag, countries non-decreasing, and the same rows
   * as the deduplicated table.
   */
  function Finalise(results: seq<Record>): (table: seq<Record>)
    ensures TagsDistinct(table)
    ensures Tags(table) == Tags(results)
    ensures forall x :: x in table ==> FirstOfTag(results, x)
    ensures SortedByCountry(table)
    ensures multiset(table) == multiset(DedupByTag(results))
  {
    var d := DedupByTag(results);
    var table := SortByCountry(d);
    SortDistinct(d);
    assert forall x :: x in table ==> x in multiset(d);
    table
  }

  /** The tags of a table with one row added at the end. */
  lemma TagsSnoc(rs: seq<Record>, x: Record)
    ensures Tags(rs + [x]) == Tags(rs) + {x.tag}
  {
    var t := rs + [x];
    forall y | y in t ensures y in rs || y == x {
      var k :| 0 <= k < |t| && t[k] == y;
      if k < |rs| {
        assert rs[k] == y;
      }
    }
    assert forall y :: y in rs ==> y in t;
  }

  /**
   * `drop_duplicates(subset="tag", keep='first', inplace=True)`: one scan that keeps a row
   * only when its tag has not been seen yet.
   */
  method DropDuplicateTags(results: seq<Record>) returns (table: seq<Record>)
    ensures table == DedupByTag(results)
  {
    table := [];
    var seen: set<string> := {};
    for i := 0 to |results|
      invariant table == DedupByTag(results[..i])
      invariant seen == Tags(table)
    {
      var x := results[i];
      assert results[..i + 1][..i] == results[..i];
      if x.tag !in seen {
        TagsSnoc(table, x);
        table := table + [x];
        seen := seen + {x.tag};
      }
    }
    assert results[..|results|] == results;
  }

  /** The finalisation of `retrieve_indices`: drop repeated tags, then sort by country. */
  method FinaliseTable(results: seq<Record>) returns (table: seq<Record>)
    ensures table == Finalise(results)
  {
    table := DropDuplicateTags(results);
    table := SortByCountry(table);
  }
}
