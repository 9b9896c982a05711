/** The pure parts of the discover screen's `Initialise` action: converting
    people rows, truncating the people strip, and assembling and filtering the
    search suggestions. The streams that feed these values are not modelled. */
module DiscoverInitialise {
  import opened Wrappers
  import opened Text
  import opened PeopleView
  import opened SearchSuggestionState

  /** A row of the people table: the server-relative URL of the face crop. */
  datatype PeopleRow = PeopleRow(id: int, name: string, faceUrl: string)

  function ToPerson(row: PeopleRow, serverUrl: string): Person {
    Person(row.id, row.name, serverUrl + row.faceUrl)
  }

  /** `toPeople`: `getServerUrl()!!` throws when no server is set; otherwise
      every face URL gets the server URL as prefix. */
  function ToPeople(rows: seq<PeopleRow>, serverUrl: Option<string>): (r: Result<seq<Person>>)
    ensures r.Err? <==> serverUrl.None?
    ensures r.Ok? ==> |r.value| == |rows|
    ensures r.Ok? ==> forall i :: 0 <= i < |rows| ==>
      r.value[i].id == rows[i].id && r.value[i].name == rows[i].name &&
      r.value[i].imageUrl == serverUrl.value + rows[i].faceUrl
  {
    match serverUrl
    case None => Err("NullPointerException")
    case Some(url) => Ok(seq(|rows|, i requires 0 <= i < |rows| => ToPerson(rows[i], url)))
  }

  /** The people strip: `subList(0, max(0, min(10, size - 1)))`. */
  function PeopleStrip(people: seq<Person>): (r: seq<Person>)
    ensures |r| <= 10 && |r| <= |people|
    ensures r == people[..|r|]
    ensures |people| <= 1 ==> r == []
    ensures 1 <= |people| <= 11 ==> |r| == |people| - 1
    ensures |people| >= 11 ==> |r| == 10
  {
    var n := if |people| - 1 < 10 then |people| - 1 else 10;
    people[..if n < 0 then 0 else n]
  }

  /** `showPeopleSuggestion` after the people stream delivers `rows`. */
  function ShowPeople(rows: seq<PeopleRow>, serverUrl: Option<string>): (r: Result<seq<Person>>)
    ensures r.Err? <==> serverUrl.None?
    ensures r.Ok? ==> |r.value| == if |rows| <= 1 then 0 else if |rows| <= 11 then |rows| - 1 else 10
    ensures r.Ok? ==> forall i :: 0 <= i < |r.value| ==> r.value[i] == ToPerson(rows[i], serverUrl.value)
  {
    match ToPeople(rows, serverUrl)
    case Err(e) => Err(e)
    case Ok(people) => Ok(PeopleStrip(people))
  }

  predicate Kept(s: SearchSuggestion, query: string) {
    ContainsIgnoringCase(s.Filterable(), query)
  }

  /** `filterQuery`: the suggestions whose filterable text contains the query,
      ignoring case. */
  function FilterQuery(list: seq<SearchSuggestion>, query: string): (r: seq<SearchSuggestion>)
    ensures |r| <= |list|
    ensures forall s :: s in r <==> s in list && Kept(s, query)
  {
    if list == [] then []
    else (if Kept(list[0], query) then [list[0]] else []) + FilterQuery(list[1..], query)
  }

  /** `a` is `b` with some elements removed, the rest in their order. */
  predicate IsSubsequence<T(==)>(a: seq<T>, b: seq<T>)
    decreases |b|
  {
    if b == [] then a == []
    else (a != [] && a[0] == b[0] && IsSubsequence(a[1..], b[1..])) || IsSubsequence(a, b[1..])
  }

  lemma {:induction false} FilterQueryIsSubsequence(list: seq<SearchSuggestion>, query: string)
    ensures IsSubsequence(FilterQuery(list, query), list)
  {
    if list != [] {
      FilterQueryIsSubsequence(list[1..], query);
      var rest := FilterQuery(list[1..], query);
      if Kept(list[0], query) {
        assert FilterQuery(list, query) == [list[0]] + rest;
        assert ([list[0]] + rest)[1..] == rest;
      } else {
        assert FilterQuery(list, query) == rest;
      }
    }
  }

  lemma {:induction false} FilterQueryIdempotent(list: seq<SearchSuggestion>, query: string)
    ensures FilterQuery(FilterQuery(list, query), query) == FilterQuery(list, query)
  {
    if list != [] {
      FilterQueryIdempotent(list[1..], query);
      var rest := FilterQuery(list[1..], query);
      if Kept(list[0], query) {
        var once := [list[0]] + rest;
        assert FilterQuery(list, query) == once;
        assert once[0] == list[0] && once[1..] == rest;
        assert FilterQuery(once, query) == [list[0]] + FilterQuery(rest, query);
      } else {
        assert FilterQuery(list, query) == rest;
      }
    }
  }

  /** Filtering a concatenation filters each part, keeping their order. */
  lemma {:induction false} FilterQueryConcat(a: seq<SearchSuggestion>, b: seq<SearchSuggestion>, query: string)
    ensures FilterQuery(a + b, query) == FilterQuery(a, query) + FilterQuery(b, query)
  {
    if a != [] {
      assert (a + b)[0] == a[0];
      assert (a + b)[1..] == a[1..] + b;
      FilterQueryConcat(a[1..], b, query);
      var head := if Kept(a[0], query) then [a[0]] else [];
      assert FilterQuery(a + b, query) == head + FilterQuery(a[1..] + b, query);
      assert FilterQuery(a, query) == head + FilterQuery(a[1..], query);
    } else {
      assert a + b == b;
    }
  }

  function RecentSuggestions(queries: seq<string>): (r: seq<SearchSuggestion>)
    ensures |r| == |queries|
    ensures forall i :: 0 <= i < |queries| ==> r[i] == RecentSearchSuggestion(queries[i])
  {
    seq(|queries|, i requires 0 <= i < |queries| => RecentSearchSuggestion(queries[i]))
  }

  function PersonSuggestions(people: seq<Person>): (r: seq<SearchSuggestion>)
    ensures |r| == |people|
    ensures forall i :: 0 <= i < |people| ==> r[i] == PersonSearchSuggestion(people[i])
  {
    seq(|people|, i requires 0 <= i < |people| => PersonSearchSuggestion(people[i]))
  }

  function ServerSuggestions(queries: seq<string>): (r: seq<SearchSuggestion>)
    ensures |r| == |queries|
    ensures forall i :: 0 <= i < |queries| ==> r[i] == ServerSearchSuggestion(queries[i])
  {
    seq(|queries|, i requires 0 <= i < |queries| => ServerSearchSuggestion(queries[i]))
  }

  /** The combining lambda of `showSearchSuggestions`: nothing for an empty
      query, otherwise recent searches, then people, then the server's
      suggestions, each filtered by the query. */
  function SearchSuggestions(recent: seq<string>, people: seq<Person>, server: seq<string>, query: string): (r: seq<SearchSuggestion>)
    ensures query == [] ==> r == []
    ensures query != [] ==> r == FilterQuery(RecentSuggestions(recent), query)
                              + FilterQuery(PersonSuggestions(people), query)
                              + FilterQuery(ServerSuggestions(server), query)
  {
    var all := if query == [] then [] else RecentSuggestions(recent) + PersonSuggestions(people) + ServerSuggestions(server);
    if query != [] then
      FilterQueryConcat(RecentSuggestions(recent) + PersonSuggestions(people), ServerSuggestions(server), query);
      FilterQueryConcat(RecentSuggestions(recent), PersonSuggestions(people), query);
      FilterQuery(all, query)
    else
      FilterQuery(all, query)
  }

  /** Whether a suggestion survives the filter depends only on the text its
      constructor was given. */
  lemma KeptDependsOnFilterable(s: SearchSuggestion, t: SearchSuggestion, query: string)
    requires s.Filterable() == t.Filterable()
    ensures Kept(s, query) <==> Kept(t, query)
  {
  }

  /** A recent search and a server suggestion with the same text, and a person
      with that name, are all kept or all dropped. */
  lemma SameTextSameFate(text: string, p: Person, query: string)
    requires p.name == text
    ensures Kept(RecentSearchSuggestion(text), query) <==> Kept(ServerSearchSuggestion(text), query)
    ensures Kept(RecentSearchSuggestion(text), query) <==> Kept(PersonSearchSuggestion(p), query)
  {
  }
}
