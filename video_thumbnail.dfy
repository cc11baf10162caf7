/**
 * The lecture card's thumbnail: the YouTube video id is taken from the
 * lecture's link by the first match of the pattern
 * `(?:youtube\.com\/watch\?v=|youtu\.be\/)([^&\n?#]+)`, and the thumbnail is
 * the video's `maxresdefault.jpg`; a link without a match shows the
 * placeholder image.
 *
 * The pattern search is modelled as a scan: at each position, from the left,
 * the first alternative whose literal text is present and is followed by at
 * least one id character matches, and the greedy group then takes the whole
 * run of id characters.
 */
module VideoThumbnail {
  import opened Basics
  import opened Text

  const WatchPrefix := "youtube.com/watch?v="
  const ShortPrefix := "youtu.be/"
  const Placeholder := "/placeholder.svg"

  /** The group's character class: anything except `&`, line feed, `?` and `#`. */
  predicate IsIdChar(c: char) {
    c != '&' && c != '\n' && c != '?' && c != '#'
  }

  /** Where the id starts when the pattern matches at position `i`. */
  function IdStartAt(s: string, i: nat): Option<nat>
    requires i <= |s|
  {
    if StartsWith(s[i..], WatchPrefix) && i + |WatchPrefix| < |s| && IsIdChar(s[i + |WatchPrefix|]) then Some(i + |WatchPrefix|)
    else if StartsWith(s[i..], ShortPrefix) && i + |ShortPrefix| < |s| && IsIdChar(s[i + |ShortPrefix|]) then Some(i + |ShortPrefix|)
    else None
  }

  /** The end of the run of id characters starting at `j`. */
  function RunEnd(s: string, j: nat): (k: nat)
    requires j <= |s|
    ensures j <= k <= |s|
    ensures forall m :: j <= m < k ==> IsIdChar(s[m])
    ensures k == |s| || !IsIdChar(s[k])
    decreases |s| - j
  {
    if j < |s| && IsIdChar(s[j]) then RunEnd(s, j + 1) else j
  }

  /** The leftmost position, from `i` on, where the pattern matches. */
  function FirstMatch(s: string, i: nat): (r: Option<nat>)
    requires i <= |s|
    ensures r.Some? ==> i <= r.value <= |s| && IdStartAt(s, r.value).Some?
    ensures r.Some? ==> forall k :: i <= k < r.value ==> IdStartAt(s, k).None?
    ensures r.None? ==> forall k :: i <= k <= |s| ==> IdStartAt(s, k).None?
    decreases |s| - i
  {
    if IdStartAt(s, i).Some? then Some(i)
    else if i == |s| then None
    else FirstMatch(s, i + 1)
  }

  /** The captured group of the first match, if any. */
  function VideoId(url: string): Option<string> {
    match FirstMatch(url, 0)
    case None => None
    case Some(i) =>
      var j := IdStartAt(url, i).value;
      Some(url[j..RunEnd(url, j)])
  }

  function Thumbnail(url: string): string {
    match VideoId(url)
    case None => Placeholder
    case Some(id) => "https://img.youtube.com/vi/" + id + "/maxresdefault.jpg"
  }

  /** One of the two literal prefixes ends at position `j`. */
  predicate PrefixEndsAt(s: string, j: int) {
    || (|WatchPrefix| <= j <= |s| && s[j - |WatchPrefix|..j] == WatchPrefix)
    || (|ShortPrefix| <= j <= |s| && s[j - |ShortPrefix|..j] == ShortPrefix)
  }

  /** An extracted id is non-empty, holds only id characters, directly follows one of
      the two literal prefixes in the link, and is not followed by another id character;
      no id is extracted exactly when the pattern matches nowhere. */
  lemma VideoIdSpec(url: string)
    ensures VideoId(url).None? <==> forall k :: 0 <= k <= |url| ==> IdStartAt(url, k).None?
    ensures VideoId(url).Some? ==>
      var id := VideoId(url).value;
      id != [] && (forall m :: 0 <= m < |id| ==> IsIdChar(id[m]))
      && exists j :: PrefixEndsAt(url, j) && j + |id| <= |url| && url[j..j + |id|] == id
                  && (j + |id| == |url| || !IsIdChar(url[j + |id|]))
  {
    NoIdIffNoMatch(url);
    if VideoId(url).Some? {
      IdShape(url);
    }
  }

  lemma NoIdIffNoMatch(url: string)
    ensures VideoId(url).None? <==> forall k :: 0 <= k <= |url| ==> IdStartAt(url, k).None?
  {
    if FirstMatch(url, 0).Some? {
      var i := FirstMatch(url, 0).value;
      assert IdStartAt(url, i).Some?;
    }
  }

  lemma IdShape(url: string)
    requires VideoId(url).Some?
    ensures var id := VideoId(url).value;
      id != [] && (forall m :: 0 <= m < |id| ==> IsIdChar(id[m]))
      && exists j :: PrefixEndsAt(url, j) && j + |id| <= |url| && url[j..j + |id|] == id
                  && (j + |id| == |url| || !IsIdChar(url[j + |id|]))
  {
    var i := FirstMatch(url, 0).value;
    var j := IdStartAt(url, i).value;
    var id := url[j..RunEnd(url, j)];
    MatchedId(url, i, j);
    forall m | 0 <= m < |id| ensures IsIdChar(id[m]) {
      assert id[m] == url[j + m];
    }
    assert PrefixEndsAt(url, j) && j + |id| <= |url| && url[j..j + |id|] == id;
  }

  lemma MatchedId(url: string, i: nat, j: nat)
    requires i <= |url| && IdStartAt(url, i) == Some(j)
    ensures var id := url[j..RunEnd(url, j)];
      id != [] && PrefixEndsAt(url, j) && j + |id| <= |url| && url[j..j + |id|] == id
      && (j + |id| == |url| || !IsIdChar(url[j + |id|]))
  {
    if StartsWith(url[i..], WatchPrefix) && i + |WatchPrefix| < |url| && IsIdChar(url[i + |WatchPrefix|]) {
      assert url[i..][..|WatchPrefix|] == url[i..i + |WatchPrefix|];
    } else {
      assert url[i..][..|ShortPrefix|] == url[i..i + |ShortPrefix|];
    }
  }

  /** Both prefixes begin with 'y', so the pattern cannot match where there is none. */
  lemma NoMatchWithoutY(s: string, k: nat)
    requires k < |s| && s[k] != 'y'
    ensures IdStartAt(s, k).None?
  {
    assert s[k..][0] == s[k];
  }

  /** A link without the letter 'y' gets the placeholder. */
  lemma PlaceholderWithoutY(url: string)
    requires 'y' !in url
    ensures Thumbnail(url) == Placeholder
  {
    forall k | 0 <= k < |url| ensures IdStartAt(url, k).None? {
      NoMatchWithoutY(url, k);
    }
    assert IdStartAt(url, |url|).None?;
  }

  /** A well-formed id after `offset` characters that cannot start a match, with `rest`
      not continuing the id, is extracted whole. */
  lemma IdAfter(url: string, offset: nat, id: string, prefixLength: nat)
    requires offset + prefixLength + |id| <= |url|
    requires forall k :: 0 <= k < offset ==> IdStartAt(url, k).None?
    requires IdStartAt(url, offset) == Some(offset + prefixLength)
    requires url[offset + prefixLength..offset + prefixLength + |id|] == id
    requires forall m :: 0 <= m < |id| ==> IsIdChar(id[m])
    requires offset + prefixLength + |id| == |url| || !IsIdChar(url[offset + prefixLength + |id|])
    ensures VideoId(url) == Some(id)
  {
    var r := FirstMatch(url, 0);
    assert r == Some(offset);
    var j := offset + prefixLength;
    forall m | j <= m < j + |id| ensures IsIdChar(url[m]) {
      assert url[m] == id[m - j];
    }
    RunEndAt(url, j, j + |id|);
  }

  /** The run ends exactly where the id characters stop. */
  lemma RunEndAt(s: string, j: nat, k: nat)
    requires j <= k <= |s|
    requires forall m :: j <= m < k ==> IsIdChar(s[m])
    requires k == |s| || !IsIdChar(s[k])
    ensures RunEnd(s, j) == k
  {
  }

  /** The short form: `https://youtu.be/<id>` yields `<id>`. */
  lemma ShortLink(id: string)
    requires id != [] && forall m :: 0 <= m < |id| ==> IsIdChar(id[m])
    ensures VideoId("https://youtu.be/" + id) == Some(id)
    ensures Thumbnail("https://youtu.be/" + id) == "https://img.youtube.com/vi/" + id + "/maxresdefault.jpg"
  {
    var url := "https://youtu.be/" + id;
    forall k | 0 <= k < 8 ensures IdStartAt(url, k).None? {
      assert url[k] == "https://"[k];
      NoMatchWithoutY(url, k);
    }
    assert url[..17] == "https://youtu.be/";
    assert url[8..17] == ShortPrefix;
    assert url[8..][..|ShortPrefix|] == ShortPrefix;
    assert !StartsWith(url[8..], WatchPrefix) by {
      if |WatchPrefix| <= |url[8..]| {
        assert url[8..][..|WatchPrefix|][5] == url[13] == '.';
      }
    }
    assert url[17] == id[0];
    assert url[17..17 + |id|] == id;
    IdAfter(url, 8, id, |ShortPrefix|);
  }

  /** The long form: `https://www.youtube.com/watch?v=<id>` followed by nothing or by
      further parameters yields `<id>`. */
  lemma WatchLink(id: string, rest: string)
    requires id != [] && forall m :: 0 <= m < |id| ==> IsIdChar(id[m])
    requires rest == [] || !IsIdChar(rest[0])
    ensures VideoId("https://www.youtube.com/watch?v=" + id + rest) == Some(id)
  {
    var head := "https://www.youtube.com/watch?v=";
    var url := head + id + rest;
    assert url[..32] == head;
    assert url[12..32] == head[12..32] == WatchPrefix;
    forall k | 0 <= k < 12 ensures IdStartAt(url, k).None? {
      assert url[k] == "https://www."[k];
      NoMatchWithoutY(url, k);
    }
    assert url[12..][..|WatchPrefix|] == WatchPrefix;
    assert url[32] == id[0];
    assert url[32..32 + |id|] == id;
    if rest != [] {
      assert url[32 + |id|] == rest[0];
    }
    IdAfter(url, 12, id, |WatchPrefix|);
  }
}
