/** The search page: the listing cards it shows, the text search and category
    filter over them, and the join that attaches each owner's `user_stats` row. */
module Search {
  import opened Wrappers
  import opened Text
  import opened Listings
  import opened Reputation
  import Seqs

  /** The event columns the page selects with each listing. */
  datatype EventInfo = EventInfo(
    id: string,
    name: Option<string>,
    nameEn: Option<string>,
    province: Option<string>,
    venue: Option<string>)

  /** One row of the listings query: the listing, its event and its owner's display name. */
  datatype Row = Row(listing: Listing, event: Option<EventInfo>, sellerName: Option<string>)

  /** A row with its owner's stats attached (`_stats`), or none. */
  datatype Card = Card(row: Row, stats: Option<Stats>)

  /** The category chips. */
  datatype Category = All | SellOnly | BuyOnly | Full | Half | TenK | FiveK

  /** The chips in the order the page shows them. */
  const Categories: seq<Category> := [All, SellOnly, BuyOnly, Full, Half, TenK, FiveK]

  /** The text of each chip; the page's initial chip is `All`. */
  function CategoryLabel(c: Category): string
  {
    match c
    case All => "ทั้งหมด"
    case SellOnly => "ขาย"
    case BuyOnly => "ซื้อ"
    case Full => "Full"
    case Half => "Half"
    case TenK => "10K"
    case FiveK => "5K"
  }

  /** The chips show every category exactly once, and no two chips share a
      text, so the page's comparisons of `filter` against the chip texts
      single out one category. */
  lemma ChipsDistinct(i: nat, j: nat, c: Category)
    requires i < j < |Categories|
    ensures Categories[i] != Categories[j]
    ensures CategoryLabel(Categories[i]) != CategoryLabel(Categories[j])
    ensures c in Categories
  {
  }

  /** The fields the text search looks in, in the order they are joined: event
      name in Thai and in English, province, venue, distance, owner name,
      meeting place and note. */
  function SearchFields(c: Card): (fields: seq<Option<string>>)
    ensures |fields| == 8
  {
    var ev := c.row.event;
    var l := c.row.listing;
    [ if ev.Some? then ev.value.name else None,
      if ev.Some? then ev.value.nameEn else None,
      if ev.Some? then ev.value.province else None,
      if ev.Some? then ev.value.venue else None,
      l.distance, c.row.sellerName, l.meetupLocation, l.note ]
  }

  /** The field as `.filter(Boolean)` sees it: kept only when non-empty. */
  function TruthyField(fields: seq<Option<string>>, i: nat): Option<string>
    requires i < |fields|
  {
    if Truthy(fields[i]) then fields[i] else None
  }

  /** The non-empty fields, in order. */
  function NonEmptyFields(fields: seq<Option<string>>): seq<string>
  {
    Seqs.Present(seq(|fields|, i requires 0 <= i < |fields| => TruthyField(fields, i)))
  }

  /** The lower-cased, space-joined text a card is searched in. */
  function SearchText(c: Card): string
  {
    ToLower(Join(NonEmptyFields(SearchFields(c)), " "))
  }

  /** The text test: a query that trims to nothing lets everything through;
      otherwise the lower-cased, trimmed query must occur in the search text. */
  predicate MatchesQuery(c: Card, query: string)
  {
    Trim(query) == "" || Contains(SearchText(c), Trim(ToLower(query)))
  }

  /** `l.distance?.includes(s)`: false when the listing has no distance. */
  predicate DistanceHas(l: Listing, s: string)
  {
    l.distance.Some? && Contains(l.distance.value, s)
  }

  /** The category test. */
  predicate MatchesCategory(l: Listing, category: Category)
  {
    match category
    case All => true
    case SellOnly => l.kind == Sell
    case BuyOnly => l.kind == Buy
    case Full => DistanceHas(l, "42")
    case Half => DistanceHas(l, "21")
    case TenK => DistanceHas(l, "10")
    case FiveK => DistanceHas(l, "5K")
  }

  /** Whether the filter callback keeps a card. */
  predicate Keep(c: Card, query: string, category: Category)
  {
    MatchesQuery(c, query) && MatchesCategory(c.row.listing, category)
  }

  /** `filteredListings`. */
  function FilteredListings(cards: seq<Card>, query: string, category: Category): (shown: seq<Card>)
    ensures |shown| <= |cards|
    ensures forall i :: 0 <= i < |shown| ==> shown[i] in cards && Keep(shown[i], query, category)
    ensures forall i :: 0 <= i < |cards| && Keep(cards[i], query, category) ==> cards[i] in shown
  {
    Seqs.Filter(cards, (c: Card) => Keep(c, query, category))
  }

  /** With a blank query (empty or white space only) and the `All` chip, every card is shown. */
  lemma BlankQueryShowsAll(cards: seq<Card>, query: string)
    requires forall i :: 0 <= i < |query| ==> IsSpace(query[i])
    ensures FilteredListings(cards, query, All) == cards
  {
    Seqs.FilterAllPass(cards, (c: Card) => Keep(c, query, All));
  }

  /** The result keeps the cards' order and drops only cards. */
  lemma FilteredIsSubsequence(cards: seq<Card>, query: string, category: Category)
    ensures Seqs.Subsequence(FilteredListings(cards, query, category), cards)
  {
    Seqs.FilterIsSubsequence(cards, (c: Card) => Keep(c, query, category));
  }

  /** What every shown card satisfies: its search text contains the trimmed,
      lower-cased query, and its listing passes the chosen chip. */
  lemma ShownCardsMatch(cards: seq<Card>, query: string, category: Category, i: nat)
    requires i < |FilteredListings(cards, query, category)|
    ensures var c := FilteredListings(cards, query, category)[i];
      var l := c.row.listing;
      && Contains(SearchText(c), Trim(ToLower(query)))
      && (category == SellOnly ==> l.kind == Sell)
      && (category == BuyOnly ==> l.kind == Buy)
      && (category == Full ==> DistanceHas(l, "42"))
      && (category == Half ==> DistanceHas(l, "21"))
      && (category == TenK ==> DistanceHas(l, "10"))
      && (category == FiveK ==> DistanceHas(l, "5K"))
  {
    var c := FilteredListings(cards, query, category)[i];
    if Trim(query) == "" {
      TrimToLowerEmpty(query);
      ContainsEmpty(SearchText(c));
    }
  }

  /** A card is found when the query occurs, ignoring case, in any one of its
      non-empty fields, and its listing passes the chip. */
  lemma FieldHitIsFound(c: Card, query: string, category: Category, k: nat)
    requires k < 8 && Truthy(SearchFields(c)[k])
    requires Contains(ToLower(SearchFields(c)[k].value), Trim(ToLower(query)))
    requires MatchesCategory(c.row.listing, category)
    ensures Keep(c, query, category)
  {
    var field := SearchFields(c)[k].value;
    FieldInSearchText(c, k);
    ContainsTransitive(SearchText(c), ToLower(field), Trim(ToLower(query)));
  }

  /** Each non-empty field, lower-cased, occurs in the search text. */
  lemma FieldInSearchText(c: Card, k: nat)
    requires k < 8 && Truthy(SearchFields(c)[k])
    ensures Contains(SearchText(c), ToLower(SearchFields(c)[k].value))
  {
    var fields := SearchFields(c);
    var slots := seq(|fields|, i requires 0 <= i < |fields| => TruthyField(fields, i));
    var parts := NonEmptyFields(fields);
    var field := fields[k].value;
    assert slots[k] == Some(field);
    Seqs.PresentAt(slots, k);
    var at := Seqs.PresentCount(slots[..k]);
    assert parts[at] == field;
    assert OccursAt(field, field, 0);
    JoinContainsPart(parts, " ", at, field);
    ContainsLower(Join(parts, " "), field);
  }

  /** Row `i` is the last row of `userStats` with this user id. */
  ghost predicate LastRowOf(userStats: seq<Stats>, userId: string, i: int)
  {
    0 <= i < |userStats| && userStats[i].userId == userId
    && forall j :: i < j < |userStats| ==> userStats[j].userId != userId
  }

  /** The owner's stats row as the `statsMap` lookup finds it: when several rows
      share a user id, the later one wins, as in the `forEach` that fills the map. */
  function StatsFor(userStats: seq<Stats>, userId: string): (r: Option<Stats>)
    ensures r.Some? ==> r.value in userStats && r.value.userId == userId
    ensures r.None? <==> forall i :: 0 <= i < |userStats| ==> userStats[i].userId != userId
    ensures r.Some? ==> exists i :: LastRowOf(userStats, userId, i) && userStats[i] == r.value
  {
    if userStats == [] then None
    else
      var n := |userStats| - 1;
      if userStats[n].userId == userId then
        assert LastRowOf(userStats, userId, n);
        Some(userStats[n])
      else
        var r := StatsFor(userStats[..n], userId);
        assert forall i :: 0 <= i < n ==> userStats[..n][i] == userStats[i];
        if r.Some? then
          LastRowSkips(userStats, userStats[..n], userId, r.value);
          r
        else r
  }

  /** A last row stays the last one when a row of another user follows it. */
  lemma LastRowSkips(userStats: seq<Stats>, prefix: seq<Stats>, userId: string, v: Stats)
    requires |userStats| > 0 && prefix == userStats[..|userStats| - 1]
    requires userStats[|userStats| - 1].userId != userId
    requires exists i :: LastRowOf(prefix, userId, i) && prefix[i] == v
    ensures exists i :: LastRowOf(userStats, userId, i) && userStats[i] == v
  {
    var i :| LastRowOf(prefix, userId, i) && prefix[i] == v;
    assert LastRowOf(userStats, userId, i);
  }

  /** The stats join of `fetchListings`. `data` is what the listings query
      returned; `userStats` is what the `user_stats` query returns for the
      collected user ids. Returns the de-duplicated owner ids and the cards. */
  method EnrichListings(data: seq<Row>, userStats: seq<Stats>) returns (userIds: seq<string>, cards: seq<Card>)
    ensures forall i, j :: 0 <= i < j < |userIds| ==> userIds[i] != userIds[j]
    ensures forall i :: 0 <= i < |data| ==> data[i].listing.userId in userIds
    ensures forall u :: u in userIds ==> exists i :: 0 <= i < |data| && data[i].listing.userId == u
    ensures |cards| == |data|
    ensures forall i :: 0 <= i < |data| ==> cards[i].row == data[i]
    ensures forall i :: 0 <= i < |data| ==> cards[i].stats == StatsFor(userStats, data[i].listing.userId)
  {
    userIds := [];
    for i := 0 to |data|
      invariant forall a, b :: 0 <= a < b < |userIds| ==> userIds[a] != userIds[b]
      invariant forall j :: 0 <= j < i ==> data[j].listing.userId in userIds
      invariant forall u :: u in userIds ==> exists j :: 0 <= j < i && data[j].listing.userId == u
    {
      var u := data[i].listing.userId;
      if u !in userIds {
        userIds := userIds + [u];
      }
    }

    var statsMap: map<string, Stats> := map[];
    if |userIds| > 0 {
      for k := 0 to |userStats|
        invariant forall u :: u in statsMap <==> StatsFor(userStats[..k], u).Some?
        invariant forall u :: u in statsMap ==> statsMap[u] == StatsFor(userStats[..k], u).value
      {
        assert userStats[..k + 1][..k] == userStats[..k];
        statsMap := statsMap[userStats[k].userId := userStats[k]];
      }
      assert userStats[..|userStats|] == userStats;
    }

    cards := [];
    for i := 0 to |data|
      invariant |cards| == i
      invariant forall j :: 0 <= j < i ==> cards[j] == Card(data[j], StatsFor(userStats, data[j].listing.userId))
    {
      var u := data[i].listing.userId;
      var stats := if u in statsMap then Some(statsMap[u]) else None;
      cards := cards + [Card(data[i], stats)];
    }
  }

  /** The badge list of a search card, built by pushing one label per set flag;
      search cards also show the free-text other item. */
  method CardIncludes(l: Listing) returns (includes: seq<string>)
    ensures includes == IncludesLabels(l, true)
  {
    includes := [];
    if l.includesBib {
      includes := includes + [BibLabel(l)];
    }
    if l.includesShirt {
      includes := includes + [ShirtLabel(l)];
    }
    if l.includesFinisherShirt {
      includes := includes + [FinisherLabel(l)];
    }
    if l.includesMedal {
      includes := includes + [MedalWord];
    }
    if Truthy(l.includesOther) {
      includes := includes + [l.includesOther.value];
    }
    IncludesLabelsUnfold(l, true);
  }

  /** The tier badge of a card. */
  function CardTier(c: Card): (t: Tier)
    ensures t == ProfileTier(c.stats)
  {
    TiersAgree(c.stats);
    SearchTier(c.stats)
  }
}
