/** The filter state of the template search page: tag selection, the guard that decides
    whether a search runs, the request it sends, and what the results area shows. */
module Search {
  import opened Common
  import opened Seqs
  import opened Text

  /** The author of a found template, as embedded by `user:user_id(email)`. */
  datatype Author = Author(email: string)

  /** One search hit. */
  datatype SearchResult = SearchResult(
    id: Id,
    title: string,
    description: string,
    imageUrl: Option<string>,
    createdAt: string,
    user: Option<Author>,
    tagNames: seq<string>)

  /** What `handleSearch` asks the backend for: the full-text query, and the tag names every
      hit must carry when the tag-containment filter is added. */
  datatype SearchRequest = SearchRequest(query: string, requiredTags: Option<seq<string>>)

  /** `toggleTag(tag)`: a selected tag is removed (every occurrence, the others keep their
      order); an unselected one is appended. */
  function ToggleSelection(selected: seq<string>, tag: string): (r: seq<string>)
    ensures tag in selected ==> tag !in r && forall i :: 0 <= i < |r| ==> r[i] in selected
    ensures tag in selected ==> forall i :: 0 <= i < |selected| && selected[i] != tag ==> selected[i] in r
    ensures tag in selected ==> forall x :: x != tag ==> multiset(r)[x] == multiset(selected)[x]
    ensures tag in selected ==> r == Filter(selected, IsNot(tag))
    ensures tag !in selected ==> r == selected + [tag]
  {
    if tag in selected then
      var r := Filter(selected, IsNot(tag));
      assert forall x :: x != tag ==> multiset(r)[x] == multiset(selected)[x] by {
        forall x | x != tag ensures multiset(r)[x] == multiset(selected)[x] {
          FilterMultiplicity(selected, IsNot(tag), x);
        }
      }
      r
    else selected + [tag]
  }

  /** Deselecting distributes over concatenation, so the remaining tags keep their order. */
  lemma DeselectKeepsOrder(a: seq<string>, b: seq<string>, tag: string)
    requires tag in a + b
    ensures ToggleSelection(a + b, tag) == Filter(a, IsNot(tag)) + Filter(b, IsNot(tag))
  {
    FilterAppend(a, b, IsNot(tag));
  }

  /** Toggling an unselected tag twice restores the selection. */
  lemma ToggleSelectionTwice(selected: seq<string>, tag: string)
    requires tag !in selected
    ensures ToggleSelection(ToggleSelection(selected, tag), tag) == selected
  {
    FilterAppend(selected, [tag], IsNot(tag));
    FilterKeepsAll(selected, IsNot(tag));
    FilterSingleton(tag, IsNot(tag));
  }

  /** Toggling keeps a selection free of duplicates. */
  lemma ToggleSelectionKeepsDistinct(selected: seq<string>, tag: string)
    requires Distinct(selected)
    ensures Distinct(ToggleSelection(selected, tag))
  {
    if tag in selected {
      FilterKeepsDistinct(selected, IsNot(tag));
    }
  }

  /** The guard of `handleSearch`: nothing is sent when the trimmed query is empty and no tag
      is selected. */
  predicate ShouldSearch(query: string, selected: seq<string>)
    ensures ShouldSearch(query, selected) <==>
      |selected| > 0 || exists i :: 0 <= i < |query| && !IsWhitespace(query[i])
  {
    BlankIffAllWhitespace(query);
    !IsBlank(query) || |selected| > 0
  }

  /** The request `handleSearch` sends: the query as typed, untrimmed, and the
      tag-containment filter exactly when some tag is selected. */
  function Request(query: string, selected: seq<string>): (r: SearchRequest)
    ensures r.query == query
    ensures r.requiredTags.Some? <==> |selected| > 0
    ensures r.requiredTags.Some? ==> r.requiredTags.value == selected
  {
    SearchRequest(query, if |selected| > 0 then Some(selected) else None)
  }

  /** The results area shows "No results found" exactly when there are no results and the
      raw query is non-empty or some tag is selected; otherwise it shows the hits or nothing. */
  predicate ShowNoResults(results: seq<SearchResult>, query: string, selected: seq<string>) {
    |results| == 0 && (query != "" || |selected| > 0)
  }

  /** A non-empty, whitespace-only query with no tag selected runs no search, yet the page
      says "No results found". */
  lemma BlankQueryShowsNoResultsWithoutSearching(query: string)
    requires query != "" && IsBlank(query)
    ensures !ShouldSearch(query, []) && ShowNoResults([], query, [])
  {
  }

  /** Such a query exists: a single space. */
  lemma SingleSpaceIsBlank()
    ensures " " != "" && IsBlank(" ")
  {
    AllWhitespaceTrimsAway(" ");
  }

  /** `result.user?.email.split('@')[0]`: the part of the author's email before its first
      `@`, or the whole email when it has none; nothing when the template has no author. */
  function AuthorLabel(user: Option<Author>): (r: Option<string>)
    ensures r.None? <==> user.None?
    ensures r.Some? ==>
      var e := user.value.email;
      && '@' !in r.value
      && |r.value| <= |e| && r.value == e[..|r.value|]
      && (|r.value| < |e| ==> e[|r.value|] == '@')
      && ('@' !in e ==> r.value == e)
  {
    if user.None? then None else Some(BeforeFirst(user.value.email, '@'))
  }

  /** The state of the search page. */
  class SearchPage {
    var query: string
    var results: seq<SearchResult>
    var loading: bool
    var selectedTags: seq<string>

    constructor ()
      ensures query == "" && results == [] && !loading && selectedTags == []
    {
      query, results, loading, selectedTags := "", [], false, [];
    }

    /** The query input's `onChange`. */
    method SetQuery(q: string)
      modifies this`query
      ensures query == q
    {
      query := q;
    }

    /** A click on a tag button. */
    method ToggleTag(tag: string)
      modifies this`selectedTags
      ensures selectedTags == ToggleSelection(old(selectedTags), tag)
    {
      selectedTags := ToggleSelection(selectedTags, tag);
    }

    /** `handleSearch`, given what the search call returned. When the guard stops the search
        nothing is sent and nothing changes; otherwise `Request(query, selectedTags)` is sent,
        the results become `data || []` on success and stay as they were on error, and loading
        ends. */
    method HandleSearch(response: Response<seq<SearchResult>>) returns (sent: Option<SearchRequest>)
      modifies this`results, this`loading
      ensures sent.None? <==> !ShouldSearch(query, selectedTags)
      ensures sent.None? ==> results == old(results) && loading == old(loading)
      ensures sent.Some? ==> sent.value == Request(query, selectedTags) && !loading
      ensures sent.Some? && response.Ok? ==> results == response.data.GetOr([])
      ensures sent.Some? && response.Failed? ==> results == old(results)
    {
      if !ShouldSearch(query, selectedTags) {
        return None;
      }
      loading := true;
      sent := Some(Request(query, selectedTags));
      if response.Ok? {
        results := response.data.GetOr([]);
      }
      loading := false;
    }

    /** Whether the page currently shows "No results found". */
    method NoResultsShown() returns (shown: bool)
      ensures shown <==> |results| == 0 && (query != "" || |selectedTags| > 0)
    {
      shown := ShowNoResults(results, query, selectedTags);
    }
  }
}
