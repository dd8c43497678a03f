/**
 * Two page behaviours of script.js: which platform a click on a social link is counted
 * for, and which job cards the search box and the category buttons leave visible.
 * `lower` stands for String.prototype.toLowerCase.
 */
module PageScript {
  import opened Values
  import opened Text

  /** The platform of a .social-link from its classes: instagram, then tiktok, then facebook. */
  function Platform(classes: set<string>): (p: string)
    ensures p == "instagram" <==> "instagram" in classes
    ensures p == "tiktok" <==> "tiktok" in classes && "instagram" !in classes
    ensures p == "facebook" <==> "facebook" in classes && "tiktok" !in classes && "instagram" !in classes
    ensures p == "other" <==> "facebook" !in classes && "tiktok" !in classes && "instagram" !in classes
  {
    if "instagram" in classes then "instagram"
    else if "tiktok" in classes then "tiktok"
    else if "facebook" in classes then "facebook"
    else "other"
  }

  /** What filterJobs reads from one .opportunity-card; None where the attribute or element is missing. */
  datatype JobCard = JobCard(category: Option<string>, country: Option<string>,
                             title: Option<string>, description: Option<string>, location: Option<string>)

  /** `x || ''` for an attribute read as is. */
  function OrEmpty(o: Option<string>): string
  {
    if o.Some? then o.value else ""
  }

  /** `el?.textContent.toLowerCase() || ''`. */
  function LoweredOrEmpty(o: Option<string>, lower: string -> string): string
  {
    if o.Some? then lower(o.value) else ""
  }

  /** The search term: the search box's value lowered, '' without a search box. */
  function SearchTerm(searchBox: Option<string>, lower: string -> string): string
  {
    LoweredOrEmpty(searchBox, lower)
  }

  /** The active button's data-filter; a missing button, attribute or an empty value mean 'all'. */
  function ActiveFilter(dataFilter: Option<string>): (f: string)
    ensures f != ""
    ensures dataFilter.Some? && dataFilter.value != "" ==> f == dataFilter.value
    ensures dataFilter.None? || dataFilter.value == "" ==> f == "all"
  {
    if dataFilter.Some? && dataFilter.value != "" then dataFilter.value else "all"
  }

  /**
   * A card matches the search when the term is empty or occurs in its lowered title,
   * description or location, or in its country as written.
   */
  predicate MatchesSearch(card: JobCard, term: string, lower: string -> string)
  {
    term == "" ||
    Contains(LoweredOrEmpty(card.title, lower), term) ||
    Contains(LoweredOrEmpty(card.description, lower), term) ||
    Contains(LoweredOrEmpty(card.location, lower), term) ||
    Contains(OrEmpty(card.country), term)
  }

  predicate MatchesFilter(card: JobCard, filter: string)
  {
    filter == "all" || OrEmpty(card.category) == filter
  }

  predicate Shown(card: JobCard, term: string, filter: string, lower: string -> string)
  {
    MatchesSearch(card, term, lower) && MatchesFilter(card, filter)
  }

  /**
   * filterJobs: the visibility of every card in document order, and whether the
   * "no results" message is shown: exactly when no card is visible.
   */
  method FilterJobs(cards: seq<JobCard>, searchBox: Option<string>, dataFilter: Option<string>, lower: string -> string)
    returns (visible: seq<bool>, noResults: bool)
    ensures |visible| == |cards|
    ensures forall i | 0 <= i < |cards| ::
      visible[i] <==> Shown(cards[i], SearchTerm(searchBox, lower), ActiveFilter(dataFilter), lower)
    ensures noResults <==> forall i | 0 <= i < |cards| :: !visible[i]
  {
    var searchTerm := SearchTerm(searchBox, lower);
    var activeFilter := ActiveFilter(dataFilter);
    var visibleCount := 0;
    visible := [];
    var i := 0;
    while i < |cards|
      invariant 0 <= i <= |cards|
      invariant |visible| == i
      invariant forall k | 0 <= k < i :: visible[k] <==> Shown(cards[k], searchTerm, activeFilter, lower)
      invariant visibleCount == 0 <==> forall k | 0 <= k < i :: !visible[k]
    {
      var card := cards[i];
      var matchesSearch := MatchesSearch(card, searchTerm, lower);
      var matchesFilter := activeFilter == "all" || OrEmpty(card.category) == activeFilter;
      if matchesSearch && matchesFilter {
        visible := visible + [true];
        visibleCount := visibleCount + 1;
      } else {
        visible := visible + [false];
      }
      i := i + 1;
    }
    noResults := visibleCount == 0;
  }

  /** With an empty search, the category buttons alone decide. */
  lemma EmptySearchFiltersByCategory(card: JobCard, filter: string, lower: string -> string)
    ensures Shown(card, "", filter, lower) <==> filter == "all" || OrEmpty(card.category) == filter
  {
  }

  /** A card visible under some category stays visible under 'all'. */
  lemma AllShowsMore(card: JobCard, term: string, filter: string, lower: string -> string)
    requires Shown(card, term, filter, lower)
    ensures Shown(card, term, "all", lower)
  {
  }

  /** A card whose title contains the term is a search match. */
  lemma TitleMatch(card: JobCard, term: string, lower: string -> string, at: nat)
    requires card.title.Some? && at + |term| <= |lower(card.title.value)|
    requires lower(card.title.value)[at..at + |term|] == term
    ensures MatchesSearch(card, term, lower)
  {
    assert OccursAt(lower(card.title.value), term, at);
  }

  /** The country is compared as written: a term occurring only there matches in any case. */
  lemma CountryMatch(card: JobCard, term: string, lower: string -> string, at: nat)
    requires card.country.Some? && at + |term| <= |card.country.value|
    requires card.country.value[at..at + |term|] == term
    ensures MatchesSearch(card, term, lower)
  {
    assert OccursAt(card.country.value, term, at);
  }
}
