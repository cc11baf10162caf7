/**
 * The badge card: each of the ten badge types has a fixed name, colour,
 * description and icon; any other type is named by turning '_' into spaces
 * and capitalising the first letter of every word, with a generic
 * description. A badge's own stored description and icon win over the
 * table's.
 */
module BadgeDisplay {
  import opened Basics
  import opened Text

  datatype Icon = StarIcon | TrophyIcon | AwardIcon | Custom(text: string)

  datatype BadgeInfo = BadgeInfo(name: string, color: string, description: string, icon: Icon)

  /** The `badge_type` enum. */
  datatype BadgeKind =
    | Contributor | Veteran | Expert | Legend | Champion
    | UpvoteHunter | ConsistentCreator | LectureMaster | ReferralKing | RisingStar

  /** The enum value as stored. */
  function KindName(k: BadgeKind): string {
    match k
    case Contributor => "contributor"
    case Veteran => "veteran"
    case Expert => "expert"
    case Legend => "legend"
    case Champion => "champion"
    case UpvoteHunter => "upvote_hunter"
    case ConsistentCreator => "consistent_creator"
    case LectureMaster => "lecture_master"
    case ReferralKing => "referral_king"
    case RisingStar => "rising_star"
  }

  /** The table key a stored type selects, if any. */
  function KindOf(badgeType: string): (r: Option<BadgeKind>)
    ensures r.Some? ==> KindName(r.value) == badgeType
  {
    match badgeType
    case "contributor" => Some(Contributor)
    case "veteran" => Some(Veteran)
    case "expert" => Some(Expert)
    case "legend" => Some(Legend)
    case "champion" => Some(Champion)
    case "upvote_hunter" => Some(UpvoteHunter)
    case "consistent_creator" => Some(ConsistentCreator)
    case "lecture_master" => Some(LectureMaster)
    case "referral_king" => Some(ReferralKing)
    case "rising_star" => Some(RisingStar)
    case _ => None
  }

  const FallbackColor := "bg-gradient-to-br from-slate-400 to-slate-600"
  const FallbackDescription := "Special achievement badge"

  /** The badge table. */
  function Entry(k: BadgeKind): BadgeInfo {
    match k
    case RisingStar => BadgeInfo("Rising Star", "bg-gradient-to-br from-yellow-200 to-yellow-400", "Awarded for 10+ uploads", StarIcon)
    case Contributor => BadgeInfo("Contributor", "bg-gradient-to-br from-sky-200 to-sky-400", "Awarded for 50+ uploads", TrophyIcon)
    case Veteran => BadgeInfo("Veteran", "bg-gradient-to-br from-violet-400 to-purple-500", "Awarded for 100+ uploads", TrophyIcon)
    case Expert => BadgeInfo("Expert", "bg-gradient-to-br from-emerald-500 to-green-600", "Awarded for exceptional quality", TrophyIcon)
    case Legend => BadgeInfo("Legend", "bg-gradient-to-br from-red-600 to-red-800", "Awarded for legendary contributions", TrophyIcon)
    case Champion => BadgeInfo("Champion", "bg-gradient-to-br from-amber-400 to-yellow-500", "Awarded for being a champion", TrophyIcon)
    case UpvoteHunter => BadgeInfo("Upvote Hunter", "bg-gradient-to-br from-orange-400 to-orange-500", "Awarded for 500+ total votes", TrophyIcon)
    case ConsistentCreator => BadgeInfo("Consistent Creator", "bg-gradient-to-br from-indigo-300 to-indigo-500", "Awarded for consistent uploads", TrophyIcon)
    case LectureMaster => BadgeInfo("Lecture Master", "bg-gradient-to-br from-pink-400 to-fuchsia-500", "Awarded for 20+ lecture uploads", TrophyIcon)
    case ReferralKing => BadgeInfo("Referral King", "bg-gradient-to-br from-teal-300 to-cyan-400", "Awarded for 5+ referrals", TrophyIcon)
  }

  /** `\w`: an ASCII letter, digit or '_'. */
  predicate IsWordChar(c: char) {
    'a' <= c <= 'z' || 'A' <= c <= 'Z' || '0' <= c <= '9' || c == '_'
  }

  /** `replace(/_/g, ' ')` */
  function Underscores(s: string): (r: string)
    ensures |r| == |s|
  {
    seq(|s|, i requires 0 <= i < |s| => if s[i] == '_' then ' ' else s[i])
  }

  /** `\b\w` matches at `i`: a word character not preceded by one. */
  predicate WordStart(s: string, i: int)
    requires 0 <= i < |s|
  {
    IsWordChar(s[i]) && (i == 0 || !IsWordChar(s[i - 1]))
  }

  /** `replace(/\b\w/g, l => l.toUpperCase())` */
  function CapitalizeWords(s: string): (r: string)
    ensures |r| == |s|
  {
    seq(|s|, i requires 0 <= i < |s| => if WordStart(s, i) then UpperChar(s[i]) else s[i])
  }

  /** The name of a type missing from the table. */
  function FallbackName(badgeType: string): string {
    CapitalizeWords(Underscores(badgeType))
  }

  /** `getBadgeInfo` */
  function Info(badgeType: string): BadgeInfo {
    match KindOf(badgeType)
    case Some(k) => Entry(k)
    case None => BadgeInfo(FallbackName(badgeType), FallbackColor, FallbackDescription, AwardIcon)
  }

  /** Every enum value selects its own table entry. */
  lemma TableCoversEnum(k: BadgeKind)
    ensures KindOf(KindName(k)) == Some(k)
    ensures Info(KindName(k)) == Entry(k)
  {
  }

  /** Types outside the table get the generic colour, description and icon. */
  lemma UnknownTypes(badgeType: string)
    requires forall k :: KindName(k) != badgeType
    ensures Info(badgeType) == BadgeInfo(FallbackName(badgeType), FallbackColor, FallbackDescription, AwardIcon)
  {
  }

  lemma UpperCharIsWordChar(c: char)
    ensures IsWordChar(UpperChar(c)) <==> IsWordChar(c)
    ensures UpperChar(UpperChar(c)) == UpperChar(c)
  {
  }

  /** The fallback name has no '_', and formatting it again changes nothing. */
  lemma FallbackNameIdempotent(badgeType: string)
    ensures '_' !in FallbackName(badgeType)
    ensures FallbackName(FallbackName(badgeType)) == FallbackName(badgeType)
  {
    var u := Underscores(badgeType);
    var n := CapitalizeWords(u);
    forall i | 0 <= i < |n| ensures n[i] != '_' {
      assert u[i] != '_';
    }
    assert Underscores(n) == n;
    forall i | 0 <= i < |n| ensures (IsWordChar(n[i]) <==> IsWordChar(u[i])) {
      UpperCharIsWordChar(u[i]);
    }
    forall i | 0 <= i < |n| ensures CapitalizeWords(n)[i] == n[i] {
      UpperCharIsWordChar(u[i]);
      if i > 0 { UpperCharIsWordChar(u[i - 1]); }
    }
  }

  predicate IsLowerWord(w: string) {
    w != [] && forall i :: 0 <= i < |w| ==> 'a' <= w[i] <= 'z'
  }

  function Capitalized(w: string): string
    requires w != []
  {
    [UpperChar(w[0])] + w[1..]
  }

  /** A lower-case word gets a capital initial. */
  lemma FallbackOneWord(w: string)
    requires IsLowerWord(w)
    ensures FallbackName(w) == Capitalized(w)
  {
    assert Underscores(w) == w;
  }

  /** Two lower-case words joined by '_' become two capitalised words joined by a space. */
  lemma FallbackTwoWords(a: string, b: string)
    requires IsLowerWord(a) && IsLowerWord(b)
    ensures FallbackName(a + "_" + b) == Capitalized(a) + " " + Capitalized(b)
  {
    var s := a + "_" + b;
    var u := Underscores(s);
    assert u == a + " " + b;
    var r := FallbackName(s);
    var e := Capitalized(a) + " " + Capitalized(b);
    forall i | 0 <= i < |r| ensures r[i] == e[i] {
      if i < |a| {
        assert u[i] == a[i];
      } else if i == |a| {
        assert u[i] == ' ';
      } else {
        assert u[i] == b[i - |a| - 1];
      }
    }
  }

  /** Applied to any enum value, the fallback formatter gives the table's own name, so the
      table changes colours, descriptions and icons but never names. */
  lemma FallbackAgreesWithTable(k: BadgeKind)
    ensures FallbackName(KindName(k)) == Entry(k).name
  {
    match k
    case Contributor => ContributorName();
    case Veteran => VeteranName();
    case Expert => ExpertName();
    case Legend => LegendName();
    case Champion => ChampionName();
    case UpvoteHunter => UpvoteHunterName();
    case ConsistentCreator => ConsistentCreatorName();
    case LectureMaster => LectureMasterName();
    case ReferralKing => ReferralKingName();
    case RisingStar => RisingStarName();
  }

  lemma ContributorName()
    ensures FallbackName("contributor") == "Contributor"
  {
    assert Underscores("contributor") == "contributor";
  }

  lemma VeteranName()
    ensures FallbackName("veteran") == "Veteran"
  {
    assert Underscores("veteran") == "veteran";
  }

  lemma ExpertName()
    ensures FallbackName("expert") == "Expert"
  {
    assert Underscores("expert") == "expert";
  }

  lemma LegendName()
    ensures FallbackName("legend") == "Legend"
  {
    assert Underscores("legend") == "legend";
  }

  lemma ChampionName()
    ensures FallbackName("champion") == "Champion"
  {
    assert Underscores("champion") == "champion";
  }

  lemma UpvoteHunterName()
    ensures FallbackName("upvote_hunter") == "Upvote Hunter"
  {
    UpvoteHunterSpaced();
    UpvoteHunterCapitalized();
  }

  lemma UpvoteHunterSpaced()
    ensures Underscores("upvote_hunter") == "upvote hunter"
  {
  }

  lemma UpvoteHunterCapitalized()
    ensures CapitalizeWords("upvote hunter") == "Upvote Hunter"
  {
  }

  lemma ConsistentCreatorName()
    ensures FallbackName("consistent_creator") == "Consistent Creator"
  {
    ConsistentCreatorSpaced();
    ConsistentCreatorCapitalized();
  }

  lemma ConsistentCreatorSpaced()
    ensures Underscores("consistent_creator") == "consistent creator"
  {
  }

  lemma ConsistentCreatorCapitalized()
    ensures CapitalizeWords("consistent creator") == "Consistent Creator"
  {
  }

  lemma LectureMasterName()
    ensures FallbackName("lecture_master") == "Lecture Master"
  {
    LectureMasterSpaced();
    LectureMasterCapitalized();
  }

  lemma LectureMasterSpaced()
    ensures Underscores("lecture_master") == "lecture master"
  {
  }

  lemma LectureMasterCapitalized()
    ensures CapitalizeWords("lecture master") == "Lecture Master"
  {
  }

  lemma ReferralKingName()
    ensures FallbackName("referral_king") == "Referral King"
  {
    ReferralKingSpaced();
    ReferralKingCapitalized();
  }

  lemma ReferralKingSpaced()
    ensures Underscores("referral_king") == "referral king"
  {
  }

  lemma ReferralKingCapitalized()
    ensures CapitalizeWords("referral king") == "Referral King"
  {
  }

  lemma RisingStarName()
    ensures FallbackName("rising_star") == "Rising Star"
  {
    RisingStarSpaced();
    RisingStarCapitalized();
  }

  lemma RisingStarSpaced()
    ensures Underscores("rising_star") == "rising star"
  {
  }

  lemma RisingStarCapitalized()
    ensures CapitalizeWords("rising star") == "Rising Star"
  {
  }

  /** A row of `user_badges`; `awardedAt` is milliseconds since the epoch. */
  datatype BadgeRow = BadgeRow(
    id: string, userId: string, badgeType: string, awardedAt: Option<int>,
    description: Option<string>, icon: Option<string>)

  /** What a badge card shows: name, description and icon. */
  function Card(b: BadgeRow): (Icon, string, string) {
    var info := Info(b.badgeType);
    (if Truthy(b.icon) then Custom(b.icon.value) else info.icon, info.name, OrElse(b.description, info.description))
  }

  /** A stored description or icon takes precedence; without one, the table's (or the
      generic) one is shown. */
  lemma StoredValuesWin(b: BadgeRow)
    ensures Truthy(b.description) ==> Card(b).2 == b.description.value
    ensures !Truthy(b.description) ==> Card(b).2 == Info(b.badgeType).description
    ensures Truthy(b.icon) ==> Card(b).0 == Custom(b.icon.value)
    ensures !Truthy(b.icon) ==> Card(b).0 == Info(b.badgeType).icon && !Card(b).0.Custom?
  {
  }

  /** The card body: the empty state, or one card per badge in order. */
  datatype Body = NoBadgesYet | Cards(cards: seq<(Icon, string, string)>)

  function BodyOf(badges: seq<BadgeRow>): (b: Body)
    ensures b.NoBadgesYet? <==> badges == []
    ensures b.Cards? ==> |b.cards| == |badges| && forall i :: 0 <= i < |badges| ==> b.cards[i] == Card(badges[i])
  {
    if badges == [] then NoBadgesYet else Cards(seq(|badges|, i requires 0 <= i < |badges| => Card(badges[i])))
  }
}
