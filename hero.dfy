/**
 * The landing page's search panel: a search text, a resource type, and a
 * course and a university chosen from lists that end in OTHER, which opens a
 * free-text field. Searching navigates to the chosen listing page with the
 * search and the final course and university as query parameters.
 */
module Hero {
  import opened Basics
  import opened Text
  import opened Uri
  import opened App
  import opened ResourcePages

  const Other := "OTHER"

  /** The resource-type choices, which are also the listing pages' paths. */
  const ResourceTypes := ["notes", "lectures", "placement"]

  datatype SearchForm = SearchForm(
    searchQuery: string, resourceType: string,
    course: string, otherCourse: string, university: string, otherUniversity: string)

  /** The free text stands in for OTHER. */
  function FinalChoice(choice: string, other: string): string {
    if choice == Other then other else choice
  }

  /** A final course or university is sent when it is non-blank and not "all". */
  predicate Sendable(v: string) {
    v != "" && Trim(v) != "" && v != "all"
  }

  function FinalCourse(f: SearchForm): string { FinalChoice(f.course, f.otherCourse) }

  function FinalUniversity(f: SearchForm): string { FinalChoice(f.university, f.otherUniversity) }

  /** The parameters `handleSearch` sets, in order. */
  function SearchParams(f: SearchForm): Params {
    (if f.searchQuery != "" then [("q", f.searchQuery)] else [])
    + (if Sendable(FinalCourse(f)) then [("course", FinalCourse(f))] else [])
    + (if Sendable(FinalUniversity(f)) then [("university", FinalUniversity(f))] else [])
  }

  /** The navigation target: `/<resourceType>?<params>`. */
  function SearchUrl(f: SearchForm): string {
    "/" + f.resourceType + "?" + Serialize(SearchParams(f))
  }

  /** Each parameter is present exactly when its rule says so, with the value the panel
      shows: the search text as typed, and the free text for OTHER. */
  lemma SearchParamsRule(f: SearchForm)
    ensures Get(SearchParams(f), "q") == if f.searchQuery != "" then Some(f.searchQuery) else None
    ensures Get(SearchParams(f), "course") == if Sendable(FinalCourse(f)) then Some(FinalCourse(f)) else None
    ensures Get(SearchParams(f), "university") == if Sendable(FinalUniversity(f)) then Some(FinalUniversity(f)) else None
  {
    ThreeParams(f.searchQuery, Sendable(FinalCourse(f)), FinalCourse(f), Sendable(FinalUniversity(f)), FinalUniversity(f));
  }

  /** The rule of `SearchParams`, over which of the three parameters are present. */
  lemma ThreeParams(query: string, sendCourse: bool, course: string, sendUniversity: bool, university: string)
    ensures var ps := (if query != "" then [("q", query)] else [])
      + (if sendCourse then [("course", course)] else [])
      + (if sendUniversity then [("university", university)] else []);
      Get(ps, "q") == (if query != "" then Some(query) else None)
      && Get(ps, "course") == (if sendCourse then Some(course) else None)
      && Get(ps, "university") == (if sendUniversity then Some(university) else None)
  {
    var q := if query != "" then [("q", query)] else [];
    var c := if sendCourse then [("course", course)] else [];
    var u := if sendUniversity then [("university", university)] else [];
    assert q + c + u == q + (c + u);
    assert "q" != "course" && "q" != "university" && "course" != "university";
    GetOfThree(q, c, u, "q");
    GetOfThree(q, c, u, "course");
    GetOfThree(q, c, u, "university");
    GetOfOptional(query != "", "q", query, "course");
    GetOfOptional(query != "", "q", query, "university");
    GetOfOptional(query != "", "q", query, "q");
    GetOfOptional(sendCourse, "course", course, "course");
    GetOfOptional(sendCourse, "course", course, "university");
    GetOfOptional(sendUniversity, "university", university, "university");
  }

  /** `get` on a list holding at most the one pair. */
  lemma GetOfOptional(present: bool, n: string, v: string, name: string)
    ensures Get(if present then [(n, v)] else [], name) == if present && n == name then Some(v) else None
  {
    if present {
      assert [(n, v)][1..] == [];
    }
  }

  /** `get` on three lists set one after the other finds the first list holding the name. */
  lemma GetOfThree(q: Params, c: Params, u: Params, name: string)
    ensures Get(q + (c + u), name) == if Get(q, name).Some? then Get(q, name) else if Get(c, name).Some? then Get(c, name) else Get(u, name)
  {
    GetAppend(q, c + u, name);
    GetAppend(c, u, name);
  }

  /** The target splits into the page path and the serialized parameters. */
  lemma SearchLocation(f: SearchForm)
    requires f.resourceType in ResourceTypes
    ensures Location(SearchUrl(f)) == ("/" + f.resourceType, "?" + Serialize(SearchParams(f)))
  {
    var path := "/" + f.resourceType;
    assert SearchUrl(f) == path + ("?" + Serialize(SearchParams(f)));
    PagePathHasNoQuery(f.resourceType);
    LocationOfPathAndQuery(path, Serialize(SearchParams(f)));
  }

  lemma PagePathHasNoQuery(t: string)
    requires t in ResourceTypes
    ensures '?' !in "/" + t
  {
    if t == "notes" {
    } else if t == "lectures" {
    } else {
    }
  }

  /** Searching towards the notes or lectures page opens it with its controls seeded from
      the panel: the search text, and the final course and university when they were sent
      ("all" otherwise). */
  lemma SearchSeedsListingFilters(f: SearchForm)
    requires f.resourceType == "notes" || f.resourceType == "lectures"
    ensures var loc := Location(SearchUrl(f));
      InitialFilters(ParseQuery(loc.1))
        == PageFilters(if Sendable(FinalCourse(f)) then FinalCourse(f) else "all", "all",
                       if Sendable(FinalUniversity(f)) then FinalUniversity(f) else "all", "votes", f.searchQuery)
  {
    SearchLocation(f);
    SerializeSearchRoundTrip(SearchParams(f));
    SearchParamsRule(f);
  }

  /** A free text typed for OTHER is upper-cased, so it is never the word "all": it is sent
      exactly when it is not blank. */
  lemma OtherTextSentUnlessBlank(text: string)
    ensures Sendable(ToUpper(text)) <==> Trim(ToUpper(text)) != ""
  {
    var u := ToUpper(text);
    if |u| > 0 {
      assert u[0] == UpperChar(text[0]) != 'a';
    }
  }

  /** One `if (final && final.trim() !== '' && final !== 'all') params.set(name, final)`
      step, on a list that does not yet hold the name. */
  method SetIfSendable(params: Params, name: string, final: string) returns (r: Params)
    requires forall i :: 0 <= i < |params| ==> params[i].0 != name
    ensures r == params + if Sendable(final) then [(name, final)] else []
  {
    r := params;
    if final != "" && Trim(final) != "" && final != "all" {
      SetParamAppends(params, name, final);
      r := SetParam(params, name, final);
    }
  }

  /** Before its own `set`, the list holds no "university" pair. */
  lemma UniversityNotYetSet(query: string, sendCourse: bool, course: string)
    ensures var ps := (if query != "" then [("q", query)] else []) + (if sendCourse then [("course", course)] else []);
      forall i :: 0 <= i < |ps| ==> ps[i].0 != "university"
  {
    assert "q" != "university" && "course" != "university";
  }

  /** The `set` calls of `handleSearch` on the panel's values. */
  method BuildSearchParams(f: SearchForm) returns (params: Params)
    ensures params == SearchParams(f)
  {
    params := [];
    if f.searchQuery != "" {
      params := SetParam(params, "q", f.searchQuery);
    }
    assert params == if f.searchQuery != "" then [("q", f.searchQuery)] else [];
    var finalCourse := if f.course == Other then f.otherCourse else f.course;
    params := SetIfSendable(params, "course", finalCourse);
    UniversityNotYetSet(f.searchQuery, Sendable(finalCourse), finalCourse);
    var finalUniversity := if f.university == Other then f.otherUniversity else f.university;
    params := SetIfSendable(params, "university", finalUniversity);
  }

  /** The panel's state. `Valid`: a free text is kept only while OTHER is chosen, and the
      resource type is one of the listing pages. */
  class SearchPanel {
    var searchQuery: string
    var resourceType: string
    var course: string
    var otherCourse: string
    var university: string
    var otherUniversity: string

    function Form(): SearchForm
      reads this
    {
      SearchForm(searchQuery, resourceType, course, otherCourse, university, otherUniversity)
    }

    predicate Valid()
      reads this
    {
      (course != Other ==> otherCourse == "")
      && (university != Other ==> otherUniversity == "")
      && resourceType in ResourceTypes
    }

    constructor ()
      ensures Valid() && Form() == SearchForm("", "notes", "all", "", "all", "")
    {
      searchQuery := "";
      resourceType := "notes";
      course := "all";
      otherCourse := "";
      university := "all";
      otherUniversity := "";
    }

    method SetSearchQuery(text: string)
      requires Valid()
      modifies this
      ensures Valid() && Form() == old(Form()).(searchQuery := text)
    {
      searchQuery := text;
    }

    method SetResourceType(t: string)
      requires Valid() && t in ResourceTypes
      modifies this
      ensures Valid() && Form() == old(Form()).(resourceType := t)
    {
      resourceType := t;
    }

    /** Choosing a course; the effect on `course` clears the free text unless OTHER is
        chosen. */
    method SetCourse(v: string)
      requires Valid()
      modifies this
      ensures Valid()
      ensures Form() == old(Form()).(course := v, otherCourse := if v == Other then old(otherCourse) else "")
    {
      course := v;
      if course != Other {
        otherCourse := "";
      }
    }

    method SetUniversity(v: string)
      requires Valid()
      modifies this
      ensures Valid()
      ensures Form() == old(Form()).(university := v, otherUniversity := if v == Other then old(otherUniversity) else "")
    {
      university := v;
      if university != Other {
        otherUniversity := "";
      }
    }

    /** Typing into the OTHER course field, which exists only while OTHER is chosen. */
    method TypeOtherCourse(text: string)
      requires Valid() && course == Other
      modifies this
      ensures Valid() && Form() == old(Form()).(otherCourse := ToUpper(text))
    {
      otherCourse := ToUpper(text);
    }

    method TypeOtherUniversity(text: string)
      requires Valid() && university == Other
      modifies this
      ensures Valid() && Form() == old(Form()).(otherUniversity := ToUpper(text))
    {
      otherUniversity := ToUpper(text);
    }

    /** `handleSearch`: fills an empty parameter list with successive `set` calls and
        returns the navigation target. */
    method HandleSearch() returns (url: string)
      ensures url == SearchUrl(Form())
    {
      var params := BuildSearchParams(Form());
      url := "/" + resourceType + "?" + Serialize(params);
    }
  }
}
