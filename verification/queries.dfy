/** `resolve_search_queries`: category selections (preset keys or free
    text) become the ordered list of searches to run. */
module Queries {
  import opened Wrappers
  import opened Text
  import opened Taxonomy
  import opened Lists

  /** The resolver accepts either a list of tokens or one comma-separated
      string. */
  datatype CategoryInput = Tokens(tokens: seq<string>) | CommaString(text: string)

  /** The preset key a token is looked up under: lower-cased, spaces turned
      into dashes, and NOT stripped first. */
  function PresetKey(token: string): string {
    ReplaceChar(Lower(token), ' ', '-')
  }

  /** The single search made for a token that is not a preset: the stripped
      token as query, its title-cased form as label, and no type filter. */
  function AdHoc(token: string): (d: Descriptor)
    ensures d.placeType.None?
    ensures d.query == Strip(token) && d.category == Title(d.query)
    ensures Trimmed(d.query) && |d.category| == |d.query|
    ensures forall i :: 0 <= i < |d.query| ==> SameLetter(d.category[i], d.query[i])
  {
    var q := Strip(token);
    Untyped(q, Title(q))
  }

  /** The searches one token contributes: at least one (which searches,
      preset or ad hoc, is `ExpandCases`). */
  function Expand(token: string): (r: seq<Descriptor>)
    ensures |r| >= 1
  {
    match Preset(PresetKey(token))
    case Some(ds) => ds
    case None => [AdHoc(token)]
  }

  /** The concatenation, in token order, of each token's searches; it is
      empty exactly when there are no tokens, since every token contributes
      at least one search. */
  function ResolveTokens(tokens: seq<string>): (r: seq<Descriptor>)
    ensures |r| >= |tokens|
    ensures |r| == 0 <==> |tokens| == 0
    decreases |tokens|
  {
    if |tokens| == 0 then []
    else
      Expand(tokens[0]) + ResolveTokens(tokens[1..])
  }

  /** The tokens a selection consists of; a comma string drops blank pieces
      and strips the others. */
  function Categories(input: CategoryInput): (r: seq<string>)
    ensures input.CommaString? ==> forall k :: 0 <= k < |r| ==> IsTerm(r[k])
  {
    match input
    case Tokens(ts) => ts
    case CommaString(s) => CommaTerms(s)
  }

  function ResolveSearchQueries(input: CategoryInput): (r: seq<Descriptor>)
    ensures |r| == 0 <==> |Categories(input)| == 0
  {
    ResolveTokens(Categories(input))
  }

  /** Resolving two token lists one after the other is resolving their
      concatenation: presets are not merged across tokens. */
  lemma ResolveAppend(a: seq<string>, b: seq<string>)
    ensures ResolveTokens(a + b) == ResolveTokens(a) + ResolveTokens(b)
  {
    forall s
      ensures SplitsAtHead(ResolveTokens, Expand, s)
    {
    }
    AppendByHead(ResolveTokens, Expand, a, b);
  }

  /** A token that names a preset contributes that preset's searches in
      their table order; any other token contributes its ad-hoc search. */
  lemma ResolveOneToken(prefix: seq<string>, token: string, suffix: seq<string>)
    ensures var r := ResolveTokens(prefix + [token] + suffix);
      var at := |ResolveTokens(prefix)|;
      && (Preset(PresetKey(token)).Some? ==>
            && at + |Preset(PresetKey(token)).value| <= |r|
            && r[at..at + |Preset(PresetKey(token)).value|] == Preset(PresetKey(token)).value)
      && (Preset(PresetKey(token)).None? ==> at < |r| && r[at] == AdHoc(token))
  {
    var e := Expand(token);
    ResolveAppend(prefix + [token], suffix);
    ResolveAppend(prefix, [token]);
    assert ResolveTokens([token]) == e by {
      assert [token][1..] == [];
    }
    Middle(ResolveTokens(prefix), e, ResolveTokens(suffix));
    ExpandCases(token);
  }

  /** The middle part of a three-part concatenation is found at the length
      of the first part. */
  lemma Middle<T>(x: seq<T>, y: seq<T>, z: seq<T>)
    ensures |x| + |y| <= |x + y + z| && (x + y + z)[|x|..|x| + |y|] == y
    ensures |y| > 0 ==> (x + y + z)[|x|] == y[0]
  {
  }

  /** A preset token expands to its preset, any other to its ad-hoc
      search. */
  lemma ExpandCases(token: string)
    ensures Preset(PresetKey(token)).Some? ==> Expand(token) == Preset(PresetKey(token)).value
    ensures Preset(PresetKey(token)).None? ==> Expand(token) == [AdHoc(token)]
  {
  }

  /** A comma string made only of commas and blanks resolves to no search
      at all (the scraper then refuses to run). */
  lemma BlankCommaStringResolvesToNothing(s: string)
    requires forall i :: 0 <= i < |s| ==> s[i] == ',' || IsSpace(s[i])
    ensures ResolveSearchQueries(CommaString(s)) == []
  {
    CommaTermsOnlySeparators(s);
  }

  /** A comma string and the list of its terms resolve to the same
      searches. */
  lemma CommaStringMatchesTerms(terms: seq<string>)
    requires forall k :: 0 <= k < |terms| ==> IsTerm(terms[k])
    ensures ResolveSearchQueries(CommaString(Join(terms, ","))) == ResolveSearchQueries(Tokens(terms))
  {
    CommaTermsJoin(terms);
  }

}
