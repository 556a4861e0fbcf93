/** The event page: one event looked up by the `id` query parameter, its
    waiting listings, the sell and buy totals, and each card's badges. */
module EventPage {
  import opened Wrappers
  import opened Text
  import opened Listings
  import Seqs

  /** A row of the `events` table, as far as the page uses it. */
  datatype EventRecord = EventRecord(
    id: string,
    name: string,
    nameEn: Option<string>,
    province: string,
    venue: Option<string>,
    availableDistances: Option<seq<string>>)

  /** What the page renders: the not-found notice, or the event with its listings. */
  datatype EventView =
    | NotFound
    | EventShown(event: EventRecord, listings: seq<Listing>, sellCount: nat, buyCount: nat)

  /** The rows of `events` with the given id. */
  function EventsWithId(events: seq<EventRecord>, id: string): seq<EventRecord>
  {
    Seqs.Filter(events, (e: EventRecord) => e.id == id)
  }

  /** `.eq('id', id).single()`: the row when exactly one matches; with none
      (or several) the query fails and `data` is null. */
  function Single(events: seq<EventRecord>, id: string): (r: Option<EventRecord>)
    ensures r.Some? <==> |EventsWithId(events, id)| == 1
    ensures r.Some? ==> r.value in events && r.value.id == id
  {
    var rows := EventsWithId(events, id);
    if |rows| == 1 then Some(rows[0]) else None
  }

  /** The listing query: this event's listings whose status is `waiting`. */
  predicate ShownFor(l: Listing, id: string)
  {
    l.eventId == id && l.status == Waiting
  }

  predicate IsSell(l: Listing) { l.kind == Sell }

  predicate IsBuy(l: Listing) { l.kind == Buy }

  /** The page for query parameter `id`, given the `events` table and the
      `listings` table (`None` when the listing query fails, which shows no
      listings and zero totals). A missing or empty `id` is answered with the
      not-found notice before either table is consulted. */
  function EventPageView(id: Option<string>, events: seq<EventRecord>, table: Option<seq<Listing>>): (v: EventView)
    ensures !Truthy(id) ==> v == NotFound
    ensures v.EventShown? <==> Truthy(id) && |EventsWithId(events, id.value)| == 1
    ensures v.EventShown? ==> v.event in events && v.event.id == id.value
  {
    if !Truthy(id) then NotFound
    else
      match Single(events, id.value)
      case None => NotFound
      case Some(ev) =>
        var shown := Seqs.Filter(table.GetOr([]), (l: Listing) => ShownFor(l, id.value));
        EventShown(ev, shown, |Seqs.Filter(shown, IsSell)|, |Seqs.Filter(shown, IsBuy)|)
  }

  /** Only this event's waiting listings are shown, all of them, in the order
      of the table. */
  lemma ShownListings(id: string, events: seq<EventRecord>, table: seq<Listing>, l: Listing)
    requires EventPageView(Some(id), events, Some(table)).EventShown?
    ensures var v := EventPageView(Some(id), events, Some(table));
      l in v.listings <==> l in table && ShownFor(l, id)
    ensures Seqs.Subsequence(EventPageView(Some(id), events, Some(table)).listings, table)
  {
    var v := EventPageView(Some(id), events, Some(table));
    if l in v.listings {
      var i :| 0 <= i < |v.listings| && v.listings[i] == l;
    }
    if l in table && ShownFor(l, id) {
      var i :| 0 <= i < |table| && table[i] == l;
    }
    Seqs.FilterIsSubsequence(table, (l: Listing) => ShownFor(l, id));
  }

  /** The sell total counts the shown sell listings, the buy total the shown
      buy listings, and together they count every shown listing. */
  lemma CountsAddUp(id: Option<string>, events: seq<EventRecord>, table: Option<seq<Listing>>)
    requires EventPageView(id, events, table).EventShown?
    ensures var v := EventPageView(id, events, table);
      v.sellCount == |Seqs.Filter(v.listings, IsSell)| && v.buyCount == |Seqs.Filter(v.listings, IsBuy)|
    ensures var v := EventPageView(id, events, table);
      v.sellCount + v.buyCount == |v.listings|
  {
    var v := EventPageView(id, events, table);
    Seqs.FilterComplement(v.listings, IsSell, IsBuy);
  }

  /** The badge list of an event-page card, built by pushing one label per
      set flag; unlike the search cards, these cards have no other-item badge. */
  method CardIncludes(l: Listing) returns (includes: seq<string>)
    ensures includes == IncludesLabels(l, false)
  {
    includes := [];
    if l.includesBib {
      includes := includes + [BibLabel(l)];
    }
    if l.includesShirt {
      includes := includes + [ShirtLabel(l)];
    }
    if l.includesFinisherShirt {
      includes := includes + [FinisherLabel(l)];
    }
    if l.includesMedal {
      includes := includes + [MedalWord];
    }
    IncludesLabelsUnfold(l, false);
  }
}
