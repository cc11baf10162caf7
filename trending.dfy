/**
 * The home page's trending section: the six most-voted visible uploads under
 * three optional filters (type, course, university), the option lists for
 * those filters, the type labels on the cards, and what a card's "View"
 * button opens.
 */
module Trending {
  import opened Basics
  import opened Listing
  import opened Ordering
  import ResourcePages

  const TrendingLimit := 6

  datatype TrendingFilters = TrendingFilters(typeFilter: string, course: string, university: string)

  const AllFilters := TrendingFilters("all", "all", "all")

  function TrendingCriteria(f: TrendingFilters): Criteria {
    Criteria(ResourcePages.FilterValue(f.typeFilter), NotHidden, ResourcePages.FilterValue(f.course), None,
             ResourcePages.FilterValue(f.university), None, false)
  }

  /** The listed uploads. */
  function TrendingUploads(rows: seq<Upload>, f: TrendingFilters): seq<Upload> {
    Limit(Select(rows, TrendingCriteria(f), ByVotes), TrendingLimit)
  }

  /** The section's row predicate, clause by clause. */
  predicate MatchesTrending(f: TrendingFilters, x: Upload) {
    && x.isHidden == Some(false)
    && (f.typeFilter == "all" || TypeName(x.utype) == f.typeFilter)
    && (f.course == "all" || x.course == f.course)
    && (f.university == "all" || x.university == Some(f.university))
  }

  lemma TrendingRowRule(f: TrendingFilters, x: Upload)
    ensures Satisfies(TrendingCriteria(f), x) <==> MatchesTrending(f, x)
  {
  }

  /** At most six uploads, each visible and matching every filter that is not "all", in
      descending order of votes; fewer than six only when fewer match; and no matching
      upload with more votes than a listed one is left out. */
  lemma TrendingTopSix(rows: seq<Upload>, f: TrendingFilters)
    ensures var t := TrendingUploads(rows, f);
      var matching := Where(rows, TrendingCriteria(f));
      |t| == (if |matching| < TrendingLimit then |matching| else TrendingLimit)
      && SortedDesc(t, ByVotes)
      && (forall x :: x in t ==> x in rows && MatchesTrending(f, x))
      && (forall x, i :: x in matching && 0 <= i < |t| && !KeyGe(KeyOf(t[i], ByVotes), KeyOf(x, ByVotes)) ==> x in t)
  {
    var c := TrendingCriteria(f);
    var m := Where(rows, c);
    var s := Select(rows, c, ByVotes);
    var t := TrendingUploads(rows, f);
    assert |s| == |m| by {
      assert s == SortDesc(m, ByVotes);
      assert |multiset(s)| == |multiset(m)|;
    }
    LimitKeepsTop(rows, c, ByVotes, TrendingLimit);
    assert SortedDesc(t, ByVotes) by {
      assert t == s[..|t|];
    }
    forall x | x in t ensures x in rows && MatchesTrending(f, x) {
      TrendingRowRule(f, x);
    }
  }

  /** `getTypeLabel` */
  function TypeLabel(typeName: string): string {
    match typeName
    case "note" => "Notes"
    case "lecture" => "Lecture"
    case "placement" => "Placement"
    case _ => typeName
  }

  /** The three upload types get three different labels, and any other text is shown as
      it is. */
  lemma TypeLabels(a: UploadType, b: UploadType, other: string)
    ensures TypeLabel(TypeName(a)) == TypeLabel(TypeName(b)) <==> a == b
    ensures other !in ["note", "lecture", "placement"] ==> TypeLabel(other) == other
  {
  }

  function Courses(rows: seq<Upload>): seq<string> {
    seq(|rows|, i requires 0 <= i < |rows| => rows[i].course)
  }

  function Universities(rows: seq<Upload>): seq<Option<string>> {
    seq(|rows|, i requires 0 <= i < |rows| => rows[i].university)
  }

  function Types(rows: seq<Upload>): seq<string> {
    seq(|rows|, i requires 0 <= i < |rows| => TypeName(rows[i].utype))
  }

  /** The rows the options are read from: every upload not hidden. */
  function OptionSource(rows: seq<Upload>): seq<Upload> {
    Where(rows, Criteria(None, NotHidden, None, None, None, None, false))
  }

  lemma OptionSourceHas(rows: seq<Upload>, x: Upload)
    ensures x in OptionSource(rows) <==> x in rows && x.isHidden == Some(false)
  {
  }

  /** The option lists: every visible upload's course, university and type, each once. */
  function TrendingOptions(rows: seq<Upload>): (seq<string>, seq<Option<string>>, seq<string>) {
    var src := OptionSource(rows);
    (Dedupe(Courses(src)), Dedupe(Universities(src)), Dedupe(Types(src)))
  }

  /** A type is offered exactly when some visible upload has it, and once. */
  lemma TypeOptions(rows: seq<Upload>, t: string)
    ensures var types := TrendingOptions(rows).2;
      (t in types <==> exists r :: r in rows && r.isHidden == Some(false) && TypeName(r.utype) == t)
      && (forall i, j :: 0 <= i < j < |types| ==> types[i] != types[j])
  {
    var src := OptionSource(rows);
    if t in Types(src) {
      var i :| 0 <= i < |src| && Types(src)[i] == t;
      assert src[i] in src;
      OptionSourceHas(rows, src[i]);
    }
    if exists r :: r in rows && r.isHidden == Some(false) && TypeName(r.utype) == t {
      var r :| r in rows && r.isHidden == Some(false) && TypeName(r.utype) == t;
      OptionSourceHas(rows, r);
      var i :| 0 <= i < |src| && src[i] == r;
      assert Types(src)[i] == t;
    }
  }

  /** What "View" does: a note opens the file viewer on its stored path; anything else
      opens its link in a new tab. */
  datatype ViewAction = ViewFile(path: string) | OpenLink(url: string)

  function ViewActionOf(r: Upload): (a: ViewAction)
    ensures a.ViewFile? <==> r.utype == Note
    ensures a.ViewFile? && r.filePath.Some? ==> a.path == r.filePath.value
    ensures a.OpenLink? && Truthy(r.externalLink) ==> a.url == r.externalLink.value
    ensures a.OpenLink? && !Truthy(r.externalLink) ==> a.url == ""
  {
    if r.utype == Note then ViewFile(ResourcePages.ViewerPath(r.filePath))
    else OpenLink(OrElse(r.externalLink, ""))
  }
}
