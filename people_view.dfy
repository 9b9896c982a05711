/** A person as the people screens, the gallery pages and the search
    suggestions show it. */
module PeopleView {

  datatype Person = Person(id: int, name: string, imageUrl: string)
}
