/** The suggestions the discover screen offers under its search field. Each
    variant fixes, when it is built, the text that a query is matched against. */
module SearchSuggestionState {
  import opened PeopleView

  datatype SearchSuggestion =
    | RecentSearchSuggestion(query: string)
    | PersonSearchSuggestion(person: Person)
    | ServerSearchSuggestion(query: string)
  {
    /** The constructor argument of the sealed base class. */
    function Filterable(): (f: string)
      ensures RecentSearchSuggestion? ==> f == query
      ensures PersonSearchSuggestion? ==> f == person.name
      ensures ServerSearchSuggestion? ==> f == query
    {
      match this
      case RecentSearchSuggestion(q) => q
      case PersonSearchSuggestion(p) => p.name
      case ServerSearchSuggestion(q) => q
    }
  }
}
