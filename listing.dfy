/**
 * The `uploads` table and the query operators the listing pages compose:
 * equality filters, the visibility `or`, the ILIKE search, descending order
 * (PostgreSQL puts NULL first in a descending sort), `limit`, and the
 * `[...new Set(xs)]` de-duplication of filter options.
 */
module Listing {
  import opened Basics
  import opened Text
  import opened Ordering

  datatype UploadType = Note | Lecture | Placement

  /** The enum's text in the database. */
  function TypeName(t: UploadType): string {
    match t
    case Note => "note"
    case Lecture => "lecture"
    case Placement => "placement"
  }

  datatype Difficulty = Easy | Medium | Hard

  /** A row of `uploads`; timestamps are milliseconds since the epoch. */
  datatype Upload = Upload(
    id: string,
    userId: string,
    title: string,
    description: Option<string>,
    utype: UploadType,
    externalLink: Option<string>,
    filePath: Option<string>,
    course: string,
    subject: string,
    university: Option<string>,
    votes: Option<int>,
    flags: Option<int>,
    createdAt: Option<int>,
    isHidden: Option<bool>,
    creatorName: Option<string>,
    platform: Option<string>,
    companyName: Option<string>,
    companyRole: Option<string>,
    difficulty: Option<Difficulty>)

  /** Who is looking: nobody, or a signed-in user who may be an admin. */
  datatype Viewer = Anonymous | Member(id: string, isAdmin: bool)

  /** The visibility filter a query carries. */
  datatype Visibility =
    | Unrestricted                 // no filter
    | NotHidden                    // .eq('is_hidden', false)
    | NotHiddenOrOwn(uid: string)  // .or('is_hidden.eq.false,user_id.eq.<uid>')

  /** The filters a PostgREST query builder has accumulated. */
  datatype Criteria = Criteria(
    typeIs: Option<string>,
    visibility: Visibility,
    courseIs: Option<string>,
    subjectIs: Option<string>,
    universityIs: Option<string>,
    search: Option<string>,
    flagsPositive: bool)

  const NoCriteria := Criteria(None, Unrestricted, None, None, None, None, false)

  datatype SortKey = ByVotes | ByCreatedAt | ByFlags

  /** `is_hidden = false`: a NULL flag is not false. */
  predicate IsShown(r: Upload) { r.isHidden == Some(false) }

  predicate Visible(v: Visibility, r: Upload) {
    match v
    case Unrestricted => true
    case NotHidden => IsShown(r)
    case NotHiddenOrOwn(uid) => IsShown(r) || r.userId == uid
  }

  /** `.eq(column, value)` on a text column; NULL equals nothing. */
  predicate EqText(filter: Option<string>, value: Option<string>) {
    filter.None? || (value.Some? && value.value == filter.value)
  }

  /** `.or('title.ilike.%t%,description.ilike.%t%')` */
  predicate SearchMatches(term: string, r: Upload) {
    var pattern := "%" + term + "%";
    ILike(pattern, r.title) || (r.description.Some? && ILike(pattern, r.description.value))
  }

  predicate Satisfies(c: Criteria, r: Upload) {
    EqText(c.typeIs, Some(TypeName(r.utype)))
    && Visible(c.visibility, r)
    && EqText(c.courseIs, Some(r.course))
    && EqText(c.subjectIs, Some(r.subject))
    && EqText(c.universityIs, r.university)
    && (c.search.None? || SearchMatches(c.search.value, r))
    && (!c.flagsPositive || (r.flags.Some? && r.flags.value > 0))
  }

  /** The rows a query's filters keep, in table order. */
  function Where(rows: seq<Upload>, c: Criteria): (r: seq<Upload>)
    ensures forall x :: x in r <==> x in rows && Satisfies(c, x)
    ensures forall x :: Satisfies(c, x) ==> multiset(r)[x] == multiset(rows)[x]
    ensures forall x :: !Satisfies(c, x) ==> multiset(r)[x] == 0
  {
    if rows == [] then []
    else
      var rest := Where(rows[1..], c);
      assert rows == [rows[0]] + rows[1..];
      if Satisfies(c, rows[0]) then [rows[0]] + rest else rest
  }

  /** `Where` leaves out exactly the rows that fail the filters. */
  ghost predicate IsFilterOf(r: seq<Upload>, rows: seq<Upload>, c: Criteria) {
    forall x :: multiset(r)[x] == (if Satisfies(c, x) then multiset(rows)[x] else 0)
  }

  function KeyOf(r: Upload, k: SortKey): Option<int> {
    match k
    case ByVotes => r.votes
    case ByCreatedAt => r.createdAt
    case ByFlags => r.flags
  }

  /** The sort key as a function, for the generic ordering. */
  function KeyFn(k: SortKey): Upload -> Option<int> {
    r => KeyOf(r, k)
  }

  predicate SortedDesc(s: seq<Upload>, k: SortKey) {
    forall i, j :: 0 <= i < j < |s| ==> KeyGe(KeyOf(s[i], k), KeyOf(s[j], k))
  }

  /** `.order(column, { ascending: false })` */
  function SortDesc(s: seq<Upload>, k: SortKey): (r: seq<Upload>)
    ensures SortedDesc(r, k)
    ensures multiset(r) == multiset(s)
  {
    var r := SortDescBy(s, KeyFn(k));
    assert forall i, j :: 0 <= i < j < |r| ==> KeyGe(KeyFn(k)(r[i]), KeyFn(k)(r[j]));
    r
  }

  /** What a filtered, ordered query may return: exactly the matching rows, in
      descending key order. */
  ghost predicate IsOrderedSelection(r: seq<Upload>, rows: seq<Upload>, c: Criteria, k: SortKey) {
    IsFilterOf(r, rows, c) && SortedDesc(r, k)
  }

  function Select(rows: seq<Upload>, c: Criteria, k: SortKey): (r: seq<Upload>)
    ensures IsOrderedSelection(r, rows, c, k)
  {
    SortDesc(Where(rows, c), k)
  }

  /** The first `n` rows of a descending sort are the top ones: a matching row whose key
      is strictly greater than that of a returned row is returned too. */
  lemma {:induction false} LimitKeepsTop(rows: seq<Upload>, c: Criteria, k: SortKey, n: nat)
    ensures |Limit(Select(rows, c, k), n)| <= n
    ensures forall x :: x in Limit(Select(rows, c, k), n) ==> x in rows && Satisfies(c, x)
    ensures forall x, i ::
      (x in rows && Satisfies(c, x) && 0 <= i < |Limit(Select(rows, c, k), n)|
        && !KeyGe(KeyOf(Limit(Select(rows, c, k), n)[i], k), KeyOf(x, k)))
      ==> x in Limit(Select(rows, c, k), n)
  {
    var s := Select(rows, c, k);
    var r := Limit(s, n);
    forall x | x in r ensures x in rows && Satisfies(c, x) {
      assert x in multiset(s);
    }
    forall x, i | x in rows && Satisfies(c, x) && 0 <= i < |r| && !KeyGe(KeyOf(r[i], k), KeyOf(x, k))
      ensures x in r
    {
      assert multiset(rows)[x] > 0;
      assert x in multiset(s);
      var j :| 0 <= j < |s| && s[j] == x;
      assert r[i] == s[i];
      assert j < |r|;
      assert r[j] == x;
    }
  }

  /** Postgres ILIKE: '%' (and '*', which PostgREST turns into '%') matches any run of
      characters, '_' any one character, everything else itself ignoring case. */
  predicate ILike(p: string, s: string)
    decreases |p| + |s|
  {
    if p == [] then s == []
    else if p[0] == '%' || p[0] == '*' then ILike(p[1..], s) || (s != [] && ILike(p, s[1..]))
    else s != [] && (p[0] == '_' || LowerChar(p[0]) == LowerChar(s[0])) && ILike(p[1..], s[1..])
  }

  predicate IsWildcard(c: char) { c == '%' || c == '*' || c == '_' }

  /** `a` and `b` are equal ignoring (ASCII) case. */
  predicate EqualsIgnoringCase(a: string, b: string) {
    |a| == |b| && forall i :: 0 <= i < |a| ==> LowerChar(a[i]) == LowerChar(b[i])
  }

  /** `t` occurs in `s`, ignoring case. */
  ghost predicate ContainsIgnoringCase(s: string, t: string) {
    exists k :: OccursAt(s, t, k)
  }

  predicate OccursAt(s: string, t: string, k: int) {
    0 <= k <= |s| - |t| && EqualsIgnoringCase(s[k..k + |t|], t)
  }

  lemma {:induction false} ILikeAnyTail(s: string)
    ensures ILike("%", s)
  {
    if s != [] { ILikeAnyTail(s[1..]); }
  }

  lemma {:induction false} ILikeLiteralPrefix(t: string, s: string)
    requires forall i :: 0 <= i < |t| ==> !IsWildcard(t[i])
    ensures ILike(t + "%", s) <==> |t| <= |s| && EqualsIgnoringCase(s[..|t|], t)
  {
    if t == [] {
      assert t + "%" == "%";
      ILikeAnyTail(s);
    } else {
      assert (t + "%")[1..] == t[1..] + "%";
      if s != [] {
        ILikeLiteralPrefix(t[1..], s[1..]);
        if |t| <= |s| && EqualsIgnoringCase(s[..|t|], t) {
          assert EqualsIgnoringCase(s[1..][..|t| - 1], t[1..]) by {
            forall i | 0 <= i < |t| - 1 ensures LowerChar(s[1..][..|t| - 1][i]) == LowerChar(t[1..][i]) {
              assert s[1..][..|t| - 1][i] == s[..|t|][i + 1];
            }
          }
        }
        if ILike(t + "%", s) {
          forall i | 0 <= i < |t| ensures LowerChar(s[..|t|][i]) == LowerChar(t[i]) {
            if i > 0 { assert s[..|t|][i] == s[1..][..|t| - 1][i - 1]; }
          }
        }
      }
    }
  }

  lemma {:induction false} ILikeLeadingPercent(q: string, s: string)
    ensures ILike("%" + q, s) <==> exists k :: 0 <= k <= |s| && ILike(q, s[k..])
  {
    var p := "%" + q;
    assert p[1..] == q;
    if s != [] {
      ILikeLeadingPercent(q, s[1..]);
      assert ILike(p, s) == (ILike(q, s) || ILike(p, s[1..]));
      if ILike(p, s) {
        if ILike(q, s) {
          assert s[0..] == s;
        } else {
          var k :| 0 <= k <= |s| - 1 && ILike(q, s[1..][k..]);
          assert s[1..][k..] == s[k + 1..];
        }
      }
      if exists k :: 0 <= k <= |s| && ILike(q, s[k..]) {
        var k :| 0 <= k <= |s| && ILike(q, s[k..]);
        if k > 0 {
          assert s[1..][k - 1..] == s[k..];
          assert ILike(p, s[1..]);
        } else {
          assert s[0..] == s;
        }
      }
    } else {
      assert s[0..] == s;
    }
  }

  /** The search filter `%term%` with a term free of wildcards is a case-insensitive
      substring test. */
  lemma SearchIsSubstring(term: string, s: string)
    requires forall i :: 0 <= i < |term| ==> !IsWildcard(term[i])
    ensures ILike("%" + term + "%", s) <==> ContainsIgnoringCase(s, term)
  {
    assert "%" + term + "%" == "%" + (term + "%");
    ILikeLeadingPercent(term + "%", s);
    if ILike("%" + term + "%", s) {
      var k :| 0 <= k <= |s| && ILike(term + "%", s[k..]);
      ILikeLiteralPrefix(term, s[k..]);
      assert s[k..][..|term|] == s[k..k + |term|];
      assert OccursAt(s, term, k);
    }
    if ContainsIgnoringCase(s, term) {
      var k :| OccursAt(s, term, k);
      ILikeLiteralPrefix(term, s[k..]);
      assert s[k..][..|term|] == s[k..k + |term|];
    }
  }

  /** Index of the first occurrence of `x` in `xs`. */
  function FirstIndex<T(==)>(xs: seq<T>, x: T): (i: nat)
    requires x in xs
    ensures i < |xs| && xs[i] == x && x !in xs[..i]
  {
    if xs[0] == x then 0 else
      var i := FirstIndex(xs[1..], x);
      assert xs[..i + 1] == [xs[0]] + xs[1..][..i];
      i + 1
  }

  /** `[...new Set(xs)]`: each value once, in the order of its first occurrence. */
  function Dedupe<T(==,!new)>(xs: seq<T>): (d: seq<T>)
    ensures forall x :: x in d <==> x in xs
    ensures forall i, j :: 0 <= i < j < |d| ==> d[i] != d[j]
    ensures forall i, j :: 0 <= i < j < |d| ==> FirstIndex(xs, d[i]) < FirstIndex(xs, d[j])
  {
    if xs == [] then []
    else
      var init := xs[..|xs| - 1];
      var last := xs[|xs| - 1];
      var d := Dedupe(init);
      assert forall x :: x in init ==> FirstIndex(xs, x) == FirstIndex(init, x) by {
        forall x | x in init ensures FirstIndex(xs, x) == FirstIndex(init, x) {
          FirstIndexPrefix(init, xs, x);
        }
      }
      assert xs == init + [last];
      if last in d then d
      else
        assert FirstIndex(xs, last) == |xs| - 1;
        d + [last]
  }

  lemma {:induction false} FirstIndexPrefix<T>(p: seq<T>, xs: seq<T>, x: T)
    requires x in p && |p| <= |xs| && xs[..|p|] == p
    ensures x in xs && FirstIndex(xs, x) == FirstIndex(p, x)
  {
    assert xs[0] == p[0];
    if p[0] != x {
      FirstIndexPrefix(p[1..], xs[1..], x);
    }
  }
}
