/**
 * The lectures page and the notes page, which differ only in the upload type
 * they list: the filter state (seeded from the URL's query string), the query
 * each page builds from it (type, visibility, the optional equality filters,
 * the title/description search and the order), the filter-option lists, and
 * "Clear All".
 */
module ResourcePages {
  import opened Basics
  import opened Listing
  import opened Uri

  /** The filter controls; "all" means no constraint. */
  datatype PageFilters = PageFilters(course: string, subject: string, university: string, sortBy: string, searchTerm: string)

  /** The initial controls: course, university and search from the URL, the rest fixed. */
  function InitialFilters(ps: Params): (f: PageFilters)
    ensures Truthy(Get(ps, "course")) ==> f.course == Get(ps, "course").value
    ensures !Truthy(Get(ps, "course")) ==> f.course == "all"
    ensures Truthy(Get(ps, "university")) ==> f.university == Get(ps, "university").value
    ensures !Truthy(Get(ps, "university")) ==> f.university == "all"
    ensures f.searchTerm == OrElse(Get(ps, "q"), "")
    ensures f.subject == "all" && f.sortBy == "votes"
  {
    PageFilters(OrElse(Get(ps, "course"), "all"), "all", OrElse(Get(ps, "university"), "all"), "votes", OrElse(Get(ps, "q"), ""))
  }

  /** "Clear All" */
  const Cleared := PageFilters("all", "all", "all", "votes", "")

  function FilterValue(v: string): Option<string> {
    if v == "all" then None else Some(v)
  }

  /** Admins see everything, signed-in users the visible rows and their own, anyone else
      the visible rows. */
  function VisibilityFor(userId: Option<string>, isAdmin: bool): Visibility {
    if isAdmin then Unrestricted
    else if userId.Some? then NotHiddenOrOwn(userId.value)
    else NotHidden
  }

  /** The filters the page's query accumulates. */
  function PageCriteria(typeName: string, userId: Option<string>, isAdmin: bool, f: PageFilters): Criteria {
    Criteria(Some(typeName), VisibilityFor(userId, isAdmin), FilterValue(f.course), FilterValue(f.subject),
             FilterValue(f.university), if f.searchTerm != "" then Some(f.searchTerm) else None, false)
  }

  function OrderKey(sortBy: string): SortKey {
    if sortBy == "latest" then ByCreatedAt else ByVotes
  }

  /** The rows the page lists. */
  function PageResults(rows: seq<Upload>, typeName: string, userId: Option<string>, isAdmin: bool, f: PageFilters): seq<Upload> {
    Select(rows, PageCriteria(typeName, userId, isAdmin, f), OrderKey(f.sortBy))
  }

  /** The page's row predicate, clause by clause: the page's type; visibility by viewer;
      each control equal to the row's value unless it is "all"; the search in title or
      description unless it is empty. */
  lemma PageRowRule(r: Upload, typeName: string, userId: Option<string>, isAdmin: bool, f: PageFilters)
    ensures Satisfies(PageCriteria(typeName, userId, isAdmin, f), r) <==>
      TypeName(r.utype) == typeName
      && (isAdmin || r.isHidden == Some(false) || (userId.Some? && r.userId == userId.value))
      && (f.course == "all" || r.course == f.course)
      && (f.subject == "all" || r.subject == f.subject)
      && (f.university == "all" || r.university == Some(f.university))
      && (f.searchTerm == "" || SearchMatches(f.searchTerm, r))
  {
  }

  /** The listed rows are exactly the table's rows meeting the page's predicate (as many
      times as they occur there), in descending order of created_at for "latest" and of
      votes otherwise. */
  lemma PageResultsAreSelection(rows: seq<Upload>, typeName: string, userId: Option<string>, isAdmin: bool, f: PageFilters)
    ensures var res := PageResults(rows, typeName, userId, isAdmin, f);
      (forall x :: x in res <==> x in rows && Satisfies(PageCriteria(typeName, userId, isAdmin, f), x))
      && (f.sortBy == "latest" ==> SortedDesc(res, ByCreatedAt))
      && (f.sortBy != "latest" ==> SortedDesc(res, ByVotes))
  {
    var res := PageResults(rows, typeName, userId, isAdmin, f);
    forall x ensures x in res <==> x in rows && Satisfies(PageCriteria(typeName, userId, isAdmin, f), x) {
      assert x in res <==> multiset(res)[x] > 0;
      assert x in rows <==> multiset(rows)[x] > 0;
    }
  }

  /** After "Clear All" only the type and the viewer's visibility constrain the query, and
      the order is by votes. */
  lemma ClearAllRemovesFilters(typeName: string, userId: Option<string>, isAdmin: bool)
    ensures PageCriteria(typeName, userId, isAdmin, Cleared)
      == Criteria(Some(typeName), VisibilityFor(userId, isAdmin), None, None, None, None, false)
    ensures OrderKey(Cleared.sortBy) == ByVotes
  {
  }

  function Courses(rows: seq<Upload>): seq<string> {
    seq(|rows|, i requires 0 <= i < |rows| => rows[i].course)
  }

  function Subjects(rows: seq<Upload>): seq<string> {
    seq(|rows|, i requires 0 <= i < |rows| => rows[i].subject)
  }

  function Universities(rows: seq<Upload>): seq<Option<string>> {
    seq(|rows|, i requires 0 <= i < |rows| => rows[i].university)
  }

  /** The rows the filter options are read from: the page's type, not hidden. */
  function OptionSource(rows: seq<Upload>, typeName: string): seq<Upload> {
    Where(rows, Criteria(Some(typeName), NotHidden, None, None, None, None, false))
  }

  lemma OptionSourceHas(rows: seq<Upload>, typeName: string, x: Upload)
    ensures x in OptionSource(rows, typeName) <==> x in rows && TypeName(x.utype) == typeName && x.isHidden == Some(false)
  {
  }

  /** The three option lists. */
  function FilterOptions(rows: seq<Upload>, typeName: string): (seq<string>, seq<string>, seq<Option<string>>) {
    var src := OptionSource(rows, typeName);
    (Dedupe(Courses(src)), Dedupe(Subjects(src)), Dedupe(Universities(src)))
  }

  /** A course is offered exactly when some visible row of the page's type has it, and it
      is offered once. (Subjects and universities follow the same rule.) */
  lemma CourseOptions(rows: seq<Upload>, typeName: string, c: string)
    ensures var courses := FilterOptions(rows, typeName).0;
      (c in courses <==> exists r :: r in rows && TypeName(r.utype) == typeName && r.isHidden == Some(false) && r.course == c)
      && (forall i, j :: 0 <= i < j < |courses| ==> courses[i] != courses[j])
  {
    var src := OptionSource(rows, typeName);
    if c in Courses(src) {
      var i :| 0 <= i < |src| && Courses(src)[i] == c;
      assert src[i] in src;
      OptionSourceHas(rows, typeName, src[i]);
    }
    if exists r :: r in rows && TypeName(r.utype) == typeName && r.isHidden == Some(false) && r.course == c {
      var r :| r in rows && TypeName(r.utype) == typeName && r.isHidden == Some(false) && r.course == c;
      OptionSourceHas(rows, typeName, r);
      var i :| 0 <= i < |src| && src[i] == r;
      assert Courses(src)[i] == c;
    }
  }

  /** The file viewer receives the stored path, or "" when there is none. */
  function ViewerPath(filePath: Option<string>): (p: string)
    ensures filePath.Some? ==> p == filePath.value
    ensures filePath.None? ==> p == ""
  {
    if filePath.Some? then filePath.value else ""
  }
}
