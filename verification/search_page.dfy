/**
 * The search screen: handleSearch in two steps around its await, the AI boost switch, and what
 * the page derives from a response (the expanded terms shown, the result label, which panel
 * is on screen).
 */
module SearchPage {
  import opened Wrappers
  import opened Text
  import opened Sequences
  import Api
  import Search

  const SearchFailed := "Search failed"
  const ShownTermLimit: nat := 5
  const Examples: seq<string> := ["Machine learning", "React", "Python", "Investment"]

  /** The request handleSearch(q) sends: the trimmed query, both kinds, the boost as it is now. */
  function SearchRequest(q: string, aiBoost: bool): (e: Api.Endpoint)
    ensures e.Search? && e.q == Strip(q) && e.includeNotes && e.includeDocs && e.aiBoost == aiBoost
  {
    Api.Search(Strip(q), true, true, aiBoost)
  }

  /** results.expanded_terms.slice(0, 5) */
  function ShownTerms(r: Search.SearchResult): (t: seq<string>)
    ensures |t| <= ShownTermLimit && |t| <= |r.expandedTerms|
    ensures forall i :: 0 <= i < |t| ==> t[i] == r.expandedTerms[i]
    ensures |r.expandedTerms| <= ShownTermLimit ==> t == r.expandedTerms
  {
    Take(r.expandedTerms, ShownTermLimit)
  }

  /** The noun after the count: singular exactly for one result. */
  function ResultLabel(total: int): (s: string)
    ensures s == "result" <==> total == 1
    ensures s == "results" <==> total != 1
  {
    if total == 1 then "result" else "results"
  }

  /** The three mutually exclusive panels under the search box. */
  datatype Panel = Spinner | Results(r: Search.SearchResult, empty: bool) | Welcome

  /** {loading && ...}, {results && !loading && ...}, {!results && !loading && ...} */
  function Shown(results: Option<Search.SearchResult>, loading: bool): (p: Panel)
    ensures p.Spinner? <==> loading
    ensures p.Results? <==> !loading && results.Some?
    ensures p.Welcome? <==> !loading && results.None?
    ensures p.Results? ==> p.r == results.value && (p.empty <==> results.value.total == 0)
  {
    if loading then Spinner
    else if results.Some? then Results(results.value, results.value.total == 0)
    else Welcome
  }

  class Page {
    var query: string
    var results: Option<Search.SearchResult>
    var loading: bool
    var aiBoost: bool

    constructor ()
      ensures query == "" && results == None && !loading && !aiBoost
    {
      query := "";
      results := None;
      loading := false;
      aiBoost := false;
    }

    /** The search button: disabled while loading or while the query is blank. */
    predicate ButtonDisabled()
      reads this
    {
      loading || Strip(query) == ""
    }

    /** handleSearch(q) up to the await: a blank query sends nothing and changes nothing. */
    method Start(q: string) returns (request: Option<Api.Endpoint>)
      modifies this
      ensures Strip(q) == "" ==> request == None && loading == old(loading)
      ensures Strip(q) != "" ==> request == Some(SearchRequest(q, aiBoost)) && loading
      ensures query == old(query) && results == old(results) && aiBoost == old(aiBoost)
    {
      if Strip(q) == "" {
        return None;
      }
      loading := true;
      request := Some(SearchRequest(q, aiBoost));
    }

    /** handleSearch after the await: a success replaces the results, a failure keeps them. */
    method Finish(outcome: Api.Outcome<Search.SearchResult>) returns (toast: Option<string>)
      modifies this
      ensures !loading && query == old(query) && aiBoost == old(aiBoost)
      ensures outcome.Success? ==> results == Some(outcome.data) && toast == None
      ensures outcome.Failure? ==> results == old(results) && toast == Some(SearchFailed)
    {
      if outcome.Success? {
        results := Some(outcome.data);
        toast := None;
      } else {
        toast := Some(SearchFailed);
      }
      loading := false;
    }

    /** An example chip: setQuery(ex), then handleSearch(ex); every example is non-blank. */
    method TryExample(ex: string) returns (request: Option<Api.Endpoint>)
      modifies this
      ensures query == ex && results == old(results) && aiBoost == old(aiBoost)
      ensures Strip(ex) != "" ==> request == Some(SearchRequest(ex, aiBoost)) && loading
      ensures Strip(ex) == "" ==> request == None && loading == old(loading)
    {
      query := ex;
      request := Start(ex);
    }

    /** The AI boost switch. */
    method ToggleBoost()
      modifies this
      ensures aiBoost == !old(aiBoost)
      ensures query == old(query) && results == old(results) && loading == old(loading)
    {
      aiBoost := !aiBoost;
    }
  }

  /** Every example chip holds a non-blank query, so clicking one always searches. */
  lemma ExamplesAreNotBlank(ex: string)
    requires ex in Examples
    ensures Strip(ex) != ""
  {
    assert !IsSpace(ex[0]);
  }
}
