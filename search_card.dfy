/** The search card: a text field whose submission opens a web search for
    the trimmed query in a new tab and clears the field. Opening a tab is
    recorded as an entry in a log of opened addresses. */
module SearchCard {
  import opened Optional
  import JsText
  import UriComponent

  const SEARCH_URL: string := "https://search.brave.com/search?q="

  /** The address a submitted search opens. */
  function SearchAddress(trimmed: string): (url: string)
    ensures |url| >= |SEARCH_URL| && url[..|SEARCH_URL|] == SEARCH_URL
    ensures UriComponent.Decode(url[|SEARCH_URL|..]) == Some(trimmed)
  {
    UriComponent.DecodeEncode(trimmed);
    var url := SEARCH_URL + UriComponent.Encode(trimmed);
    assert url[|SEARCH_URL|..] == UriComponent.Encode(trimmed);
    url
  }

  /** The component's state, and the tabs it has opened so far. */
  class SearchBox {
    var query: string
    var tabs: seq<string>

    /** The field starts empty. */
    constructor ()
      ensures query == "" && tabs == []
    {
      query := "";
      tabs := [];
    }

    /** `onChange`: the field takes the input's value. */
    method Change(value: string)
      modifies this
      ensures query == value && tabs == old(tabs)
    {
      query := value;
    }

    /** `handleSubmit`: a query that is blank after trimming does nothing;
        otherwise one tab opens on the search for the trimmed query and the
        field is cleared. */
    method Submit()
      modifies this
      ensures JsText.Trim(old(query)) == "" ==> query == old(query) && tabs == old(tabs)
      ensures JsText.Trim(old(query)) != "" ==>
        query == "" && tabs == old(tabs) + [SearchAddress(JsText.Trim(old(query)))]
    {
      var trimmed := JsText.Trim(query);
      if trimmed == "" {
        return;
      }
      tabs := tabs + [SearchAddress(trimmed)];
      query := "";
    }
  }

  /** What is searched for is the trimmed query, never the raw one: the
      address decodes back to `Trim(query)`, so surrounding whitespace is
      never sent, and distinct trimmed queries open distinct addresses. */
  lemma SearchSendsTrimmedQuery(query: string, other: string)
    ensures UriComponent.Decode(SearchAddress(JsText.Trim(query))[|SEARCH_URL|..]) == Some(JsText.Trim(query))
    ensures SearchAddress(JsText.Trim(query)) == SearchAddress(JsText.Trim(other)) ==>
      JsText.Trim(query) == JsText.Trim(other)
  {
  }

  /** Typing then submitting a query opens exactly one tab when the query
      has a non-whitespace character and none otherwise; the field ends
      empty in the first case and unchanged in the second. */
  method TypeAndSubmit(value: string) returns (query: string, tabs: seq<string>)
    ensures !JsText.AllWhitespace(value) ==> query == "" && tabs == [SearchAddress(JsText.Trim(value))]
    ensures JsText.AllWhitespace(value) ==> query == value && tabs == []
  {
    var box := new SearchBox();
    box.Change(value);
    box.Submit();
    query, tabs := box.query, box.tabs;
  }
}
