/**
 * The parsing half of `retrieve_index_info`: given the detail page of one index, pick up
 * its ticker symbol from the page heading and its currency from the summary block.
 * The page is abstracted to its status code, the texts of its `instrumentHead` headings
 * and the texts of the bold spans of its `bottom` block, in document order.
 */
module Detail {
  import opened Outcome
  import opened Text

  datatype DetailPage = DetailPage(status: int, headings: seq<string>, spans: seq<string>)

  /** The two fields the detail page supplies; either may be missing. */
  datatype Detail = Detail(symbol: Option<string>, currency: Option<string>)

  /** The character class `[a-zA-Z0-9\.\-\_\=]` of the symbol pattern. */
  predicate IsSymbolChar(c: char)
  {
    ('a' <= c <= 'z') || ('A' <= c <= 'Z') || ('0' <= c <= '9')
    || c == '.' || c == '-' || c == '_' || c == '='
  }

  predicate AllSymbolChars(t: string)
  {
    forall i :: 0 <= i < |t| ==> IsSymbolChar(t[i])
  }

  /** `s` ends with `(`, then `t`, then `)`. */
  predicate EndsWithParenthesised(s: string, t: string)
  {
    |t| + 2 <= |s| && s[|s| - |t| - 2..] == "(" + t + ")"
  }

  /** `$` also matches before one newline that ends the string. */
  function WithoutFinalNewline(s: string): string
  {
    if s != [] && s[|s| - 1] == '\n' then s[..|s| - 1] else s
  }

  /**
   * Scanning leftwards from position `k` over symbol characters, the position of the
   * `(` that opens the token ending at `k`, if the scan reaches one.
   */
  function OpenParen(s: string, k: nat): (j: Option<nat>)
    requires k <= |s|
    ensures j.Some? ==> j.value < k
    decreases k
  {
    if k == 0 then None
    else if s[k - 1] == '(' then Some(k - 1)
    else if IsSymbolChar(s[k - 1]) then OpenParen(s, k - 1)
    else None
  }

  lemma {:induction false} OpenParenSpec(s: string, k: nat)
    requires k <= |s|
    ensures OpenParen(s, k).Some? ==>
              var j := OpenParen(s, k).value;
              j < k && s[j] == '(' && AllSymbolChars(s[j + 1..k])
    ensures OpenParen(s, k).None? ==>
              forall i :: 0 <= i < k && s[i] == '(' ==> !AllSymbolChars(s[i + 1..k])
    decreases k
  {
    if k > 0 && s[k - 1] != '(' {
      if IsSymbolChar(s[k - 1]) {
        OpenParenSpec(s, k - 1);
        if OpenParen(s, k).Some? {
          var j := OpenParen(s, k).value;
          assert s[j + 1..k] == s[j + 1..k - 1] + [s[k - 1]];
        } else {
          forall i | 0 <= i < k && s[i] == '('
            ensures !AllSymbolChars(s[i + 1..k])
          {
            assert i < k - 1;
            assert s[i + 1..k - 1] == s[i + 1..k][..k - 1 - (i + 1)];
          }
        }
      } else {
        forall i | 0 <= i < k && s[i] == '('
          ensures !AllSymbolChars(s[i + 1..k])
        {
          assert s[i + 1..k][k - 1 - (i + 1)] == s[k - 1];
        }
      }
    }
  }

  /**
   * The text that `re.compile(r"\([a-zA-Z0-9\.\-\_\=]*?\)$").search(s)` matches. No
   * symbol character is a parenthesis, so at most one start position can match.
   */
  function SymbolMatch(s: string): Option<string>
  {
    var b := WithoutFinalNewline(s);
    if b != [] && b[|b| - 1] == ')' then
      match OpenParen(b, |b| - 1)
      case Some(j) => Some(b[j..])
      case None => None
    else None
  }

  /** The symbol of one stripped heading: the match with every `(` and `)` deleted. */
  function SymbolOf(val: string): Option<string>
  {
    match SymbolMatch(val)
    case Some(g) => Some(ReplaceAll(ReplaceAll(g, "(", ""), ")", ""))
    case None => None
  }

  /** One heading's contribution: empty texts are skipped, others are stripped first. */
  function HeadingSymbol(text: string): Option<string>
  {
    if text == "" then None else SymbolOf(Strip(text))
  }

  /** One bold span's contribution: a non-empty text is the currency, as it is. */
  function SpanCurrency(text: string): Option<string>
  {
    if text == "" then None else Some(text)
  }

  /** Deleting the parentheses from `(t)` gives `t` back when `t` is made of symbol characters. */
  lemma DeleteParens(t: string)
    requires AllSymbolChars(t)
    ensures ReplaceAll(ReplaceAll("(" + t + ")", "(", ""), ")", "") == t
  {
    ContainsChar(t, '(');
    ContainsChar(t, ')');
    assert !Contains(t, "(") && !Contains(t, ")");
    ReplaceCharSplit("(", t + ")", '(', "");
    ReplaceCharSplit(t, ")", '(', "");
    ReplaceAllAbsent(t, "(", "");
    assert "(" + t + ")" == "(" + (t + ")");
    assert ReplaceAll("(", "(", "") == "";
    assert ReplaceAll(")", "(", "") == ")";
    assert ReplaceAll("(" + t + ")", "(", "") == t + ")";
    ReplaceCharSplit(t, ")", ')', "");
    ReplaceAllAbsent(t, ")", "");
    assert ReplaceAll(")", ")", "") == "";
  }

  /** At most one symbol token can close a text. */
  lemma ParenthesisedUnique(b: string, t1: string, t2: string)
    requires EndsWithParenthesised(b, t1) && AllSymbolChars(t1)
    requires EndsWithParenthesised(b, t2) && AllSymbolChars(t2)
    ensures t1 == t2
  {
    var j1, j2 := |b| - |t1| - 2, |b| - |t2| - 2;
    assert b[j1] == '(' && b[j1 + 1..|b| - 1] == t1;
    assert b[j2] == '(' && b[j2 + 1..|b| - 1] == t2;
  }

  /** When the pattern matches, the symbol is the token between the parentheses. */
  lemma SymbolFound(s: string) returns (tok: string)
    requires SymbolMatch(s).Some?
    ensures SymbolOf(s) == Some(tok)
    ensures EndsWithParenthesised(WithoutFinalNewline(s), tok) && AllSymbolChars(tok)
  {
    var b := WithoutFinalNewline(s);
    OpenParenSpec(b, |b| - 1);
    var j := OpenParen(b, |b| - 1).value;
    tok := b[j + 1..|b| - 1];
    assert b[j..] == "(" + tok + ")";
    assert SymbolMatch(s) == Some("(" + tok + ")");
    DeleteParens(tok);
  }

  /** When the pattern does not match, no text ends with a parenthesised symbol token. */
  lemma SymbolMissing(s: string, t: string)
    requires SymbolMatch(s).None?
    ensures !(EndsWithParenthesised(WithoutFinalNewline(s), t) && AllSymbolChars(t))
  {
    var b := WithoutFinalNewline(s);
    if EndsWithParenthesised(b, t) && AllSymbolChars(t) {
      var j := |b| - |t| - 2;
      assert b[j] == '(' && b[j + 1..|b| - 1] == t && b[|b| - 1] == ')';
      OpenParenSpec(b, |b| - 1);
      assert false;
    }
  }

  /**
   * The symbol is `t` exactly when the text (without a final newline) ends with `(t)`
   * and `t` is made of symbol characters; in particular `()` gives the empty symbol.
   */
  lemma SymbolOfSpec(s: string, t: string)
    ensures SymbolOf(s) == Some(t) <==>
              EndsWithParenthesised(WithoutFinalNewline(s), t) && AllSymbolChars(t)
  {
    if SymbolMatch(s).Some? {
      var tok := SymbolFound(s);
      if EndsWithParenthesised(WithoutFinalNewline(s), t) && AllSymbolChars(t) {
        ParenthesisedUnique(WithoutFinalNewline(s), tok, t);
      }
    } else {
      SymbolMissing(s, t);
    }
  }

  /**
   * A heading gives the symbol `t` exactly when its stripped text ends with `(t)` and `t`
   * is made of symbol characters; otherwise it gives none.
   */
  lemma HeadingSymbolSpec(text: string, t: string)
    ensures HeadingSymbol(text) == Some(t) <==>
              EndsWithParenthesised(Strip(text), t) && AllSymbolChars(t)
  {
    var v := Strip(text);
    SymbolOfSpec(v, t);
    if text == "" {
      var i :| PaddedAt(text, i, v);
    } else {
      assert v != [] ==> IsSpace('\n') && v[|v| - 1] != '\n';
      assert WithoutFinalNewline(v) == v;
    }
  }

  /**
   * The value a loop leaves when every element `x` for which `f(x)` is present
   * overwrites the previous value: the last present one.
   */
  function LastSome<T>(xs: seq<T>, f: T -> Option<string>): Option<string>
  {
    if xs == [] then None
    else if f(xs[|xs| - 1]).Some? then f(xs[|xs| - 1])
    else LastSome(xs[..|xs| - 1], f)
  }

  /** The last present value wins; none is found only when no element gives one. */
  lemma {:induction false} LastSomeSpec<T>(xs: seq<T>, f: T -> Option<string>)
    ensures LastSome(xs, f).None? <==> forall k :: 0 <= k < |xs| ==> f(xs[k]).None?
    ensures LastSome(xs, f).Some? ==>
              exists k :: 0 <= k < |xs| && f(xs[k]) == LastSome(xs, f)
                          && forall j :: k < j < |xs| ==> f(xs[j]).None?
  {
    if xs != [] {
      var init := xs[..|xs| - 1];
      LastSomeSpec(init, f);
      if f(xs[|xs| - 1]).None? {
        assert forall k :: 0 <= k < |init| ==> init[k] == xs[k];
        if LastSome(xs, f).Some? {
          var k :| 0 <= k < |init| && f(init[k]) == LastSome(init, f)
                   && forall j :: k < j < |init| ==> f(init[j]).None?;
          assert f(xs[k]) == LastSome(xs, f);
        }
      } else {
        assert f(xs[|xs| - 1]) == LastSome(xs, f);
      }
    }
  }

  /** One more element: it overwrites the value when it gives one. */
  lemma LastSomeStep<T>(xs: seq<T>, i: nat, f: T -> Option<string>)
    requires i < |xs|
    ensures LastSome(xs[..i + 1], f) == if f(xs[i]).Some? then f(xs[i]) else LastSome(xs[..i], f)
  {
    assert xs[..i + 1][..i] == xs[..i];
  }

  /** What `retrieve_index_info` returns for a page. */
  function InfoOf(page: DetailPage): Result<Detail>
  {
    if page.status != 200 then Err(ConnectionError(page.status))
    else Ok(Detail(LastSome(page.headings, HeadingSymbol), LastSome(page.spans, SpanCurrency)))
  }

  /**
   * `retrieve_index_info` after the request: a non-200 status raises; otherwise both
   * fields start missing and every heading, then every span, may overwrite them.
   */
  method RetrieveIndexInfo(page: DetailPage) returns (r: Result<Detail>)
    ensures r == InfoOf(page)
  {
    if page.status != 200 {
      return Err(ConnectionError(page.status));
    }
    var symbol: Option<string> := None;
    var currency: Option<string> := None;
    for i := 0 to |page.headings|
      invariant symbol == LastSome(page.headings[..i], HeadingSymbol)
    {
      var text := page.headings[i];
      LastSomeStep(page.headings, i, HeadingSymbol);
      if text != "" {
        var found := SymbolOf(Strip(text));
        if found.Some? {
          symbol := found;
        }
      }
    }
    for i := 0 to |page.spans|
      invariant currency == LastSome(page.spans[..i], SpanCurrency)
    {
      var text := page.spans[i];
      LastSomeStep(page.spans, i, SpanCurrency);
      if text != "" {
        currency := Some(text);
      }
    }
    assert page.headings[..|page.headings|] == page.headings;
    assert page.spans[..|page.spans|] == page.spans;
    return Ok(Detail(symbol, currency));
  }
}
