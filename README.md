# PloiBib page rules in Dafny

PloiBib is a marketplace where runners pass on race bibs. People post that
they sell a bib or want to buy one for a race event, search the posts, and
arrange meetups. This project models the small, deterministic rules that the
Next.js pages of the app contain. It proves what those pages promise about them.

- **Reputation** (`reputation.dfy`). This is the score and tier of a user's
  statistics. The profile page clamps the score to 0–100. The search page's
  `getRepLevel` does not clamp it. The module also holds the average rating.
- **Search** (`search.dfy`). This is the filter on the card list: a
  case-folded substring search over the space-joined non-empty fields, then
  the category chip. It also covers the step that attaches each seller's
  statistics row to their cards, and the badges of a card.
- **Create** (`create.dfy`). This covers the form state, the required-field
  check, the sign-in check and the record handed to the insert. It includes
  `parseInt` on the price fields, and the rule that picking another event
  clears the distance.
- **Home** (`home.dfy`). This is the per-event table of how many waiting
  listings sell or buy that event's bib. The page builds it by incrementing a
  dictionary once per row.
- **Matches** (`matches.dfy`). This splits the user's own listings into the
  waiting, matched and completed sections, after the signed-out early return.
- **Event page** (`event.dfy`). This covers the lookup by `id` and the event's
  waiting listings with their sell and buy totals.
- **Bottom navigation** (`bottomnav.dfy`). These are the five tabs and which
  one is highlighted.
- **Profile** (`profile.dfy`). This covers the display-name fallback, avatar
  validation, the storage path, and the upload handler as a class whose
  fields are the page state it changes.

Shared pieces:

- `listings.dfy` has the listing record and the badge labels that three pages
  build.
- `seqs.dfy` has `Array.prototype.filter` and push-only list building.
- `text.dfy` has the JavaScript string operations the pages use: `trim`,
  `trimStart`, `toLowerCase`, `includes`, `join`, and `split(...)[0]` and
  `split(...).pop()`.
- `wrappers.dfy` has `Option`.

JavaScript values are mapped as follows:

- `null`/`undefined` is `None`.
- A string counts as truthy when it is present and non-empty.
- Database rows are datatypes.
- Anything the code fetches becomes a parameter: Supabase query results, the
  signed-in user, storage and update errors, the public URL and the clock.
- An imperative handler becomes a method on a class. The fields of the class
  are the React state the handler sets. They also record the effects the
  handler causes: alerts, uploads, inserts, navigations and scheduled
  redirects.

## Model

| member | source | states |
|---|---|---|
| Reputation.ProfileScore | src/app/profile/page.tsx:134-136 | The score lies in [0, 100]. Missing stats give 50. Otherwise it is 50 + 5·completed − 15·cancelled − 10·no-response, clamped at 0 and at 100. |
| Reputation.TierOf | src/app/profile/page.tsx:137 | highly_trusted iff score ≥ 81, trusted iff 56 ≤ score < 81, new iff score < 56. |
| Reputation.SearchTier | src/app/search/page.tsx:56-62 | The unclamped search-page tier. Missing stats give `new`. |
| Reputation.TiersAgree | src/app/search/page.tsx:56-62 | For every stats record, present or missing, the search-page tier equals the profile page's tier of the clamped score. The clamp never changes the tier. |
| Reputation.MissingStatsIsNeutral | src/app/profile/page.tsx:134-137 | Missing stats give score 50 and tier `new`. A record with no deals scores the same. |
| Reputation.ProfileScoreMonotone | src/app/profile/page.tsx:135 | More completed deals, or fewer cancellations or no-responses, never lower the score. The tier moves the same way. |
| Reputation.AverageRating | src/app/profile/page.tsx:144 | Absent iff stats are missing or the rating count is 0. Otherwise it is the quotient: average × count = sum. |
| Search.FilteredListings | src/app/search/page.tsx:71-94 | Every shown card is a card of the list that passes the query and the chip, and every such card is shown. Its order is stated by Search.FilteredIsSubsequence. |
| Search.ChipsDistinct | src/app/search/page.tsx:16 | The seven chips are distinct, have distinct texts, and cover every category. |
| Search.BlankQueryShowsAll | src/app/search/page.tsx:71-94 | With an empty or all-white-space query and the "all" chip, every card is kept. |
| Search.FilteredIsSubsequence | src/app/search/page.tsx:71-94 | The filtered list is an order-preserving subsequence of the card list. |
| Search.ShownCardsMatch | src/app/search/page.tsx:75-91 | Every shown card has search text containing the trimmed lower-cased query. The sell/buy chips keep only that type. Full/Half/10K/5K keep only distances containing 42/21/10/5K. |
| Search.FieldHitIsFound | src/app/search/page.tsx:75-83 | A card is kept when the query occurs, ignoring case, in any one of its non-empty fields and the card passes the chip. |
| Search.FieldInSearchText | src/app/search/page.tsx:77-80 | Every non-empty field, lower-cased, occurs in the lower-cased joined search text. |
| Search.StatsFor | src/app/search/page.tsx:43-49 | The stats row attached to a user is a row of that user. No later row has that user's id, so the last one wins. It is null exactly when no row has that user's id. |
| Search.EnrichListings | src/app/search/page.tsx:36-50 | `userIds` has no duplicates and holds exactly the listings' user ids. Each enriched card keeps its row and carries the stats row of its own user, or null. |
| Search.CardIncludes | src/app/search/page.tsx:169-174 | The pushed badge list equals the present slots in the order bib, shirt, finisher, medal, other. |
| Search.CardTier | src/app/search/page.tsx:164 | The tier a card shows equals the profile-page tier of its stats. |
| Listings.IncludesLabelsUnfold | src/app/search/page.tsx:169-174 | The badge list is the bib, shirt, finisher, medal and other labels, each present only when its flag is set. |
| Listings.IncludesLabelsCount | src/app/event/page.tsx:63-67 | There is one badge per set flag. |
| Listings.IncludesLabelsOrder | src/app/search/page.tsx:169-174 | Any two shown badges keep their slot order. |
| Listings.BibLabelFirst | src/app/search/page.tsx:170 | A set bib flag puts the bib badge first. |
| Listings.BibLabelGender | src/app/event/page.tsx:64 | The bib badge carries ` (gender)` exactly when a gender is set. |
| Text.Contains | src/app/search/page.tsx:82 | `includes` is true iff the needle occurs at some position. |
| Text.Trim | src/app/search/page.tsx:75-76 | The result is empty iff the input is all white space. Otherwise it starts and ends with a non-space character. It occurs in the input at a position with only white space before it and after it. |
| Text.TrimStart | src/app/create/page.tsx:81 | The result is a suffix without leading white space, and only white space was removed. |
| Text.ToLower | src/app/search/page.tsx:76-80 | Same length, mapped character by character. |
| Text.ToLowerConcat | src/app/search/page.tsx:80 | Lower-casing distributes over concatenation. |
| Text.ContainsLower | src/app/search/page.tsx:80-82 | An occurrence survives lower-casing of both strings. |
| Text.ContainsTransitive | src/app/search/page.tsx:80-82 | An occurrence inside an occurrence is an occurrence. |
| Text.JoinContainsPart | src/app/search/page.tsx:80 | What occurs in one part occurs in the joined text. |
| Text.TrimToLowerEmpty | src/app/search/page.tsx:75-76 | The query is blank after lower-casing iff it was blank before. |
| Text.BeforeFirst | src/app/profile/page.tsx:145 | `split('@')[0]`: the longest prefix without `@`. |
| Text.AfterLast | src/app/profile/page.tsx:65 | `split('.').pop()`: the longest suffix without `.`. |
| Profile.DisplayName | src/app/profile/page.tsx:145 | The profile display name if it is set. Otherwise the email's local part if it is non-empty. Otherwise "User". Never empty. |
| Profile.CheckAvatar | src/app/profile/page.tsx:52-61 | Too large iff the size is > 1048576. Unsupported iff the size is fine and the type is not jpeg/png/webp. Accepted iff both checks pass. |
| Profile.SizeBoundary | src/app/profile/page.tsx:52 | Exactly 1048576 bytes passes the size check and 1048577 does not. |
| Profile.AvatarPath | src/app/profile/page.tsx:65-66 | The path is `userId/avatar.` followed by the text after the last dot of the file name, or the whole name when it has no dot. |
| Profile.AvatarUploader.HandleAvatarUpload | src/app/profile/page.tsx:47-100 | No file or no user: nothing happens. A rejected file gets one alert and no upload. An accepted file is uploaded to its path. Upload failure: alert and nothing else. Otherwise the profile update is sent the cache-busted URL, and on success the avatar becomes that URL. `uploading` always ends false. |
| Create.DigitRun | src/app/create/page.tsx:81 | The longest digit prefix: its characters are digits and the next one is not. |
| Create.NatString | src/app/create/page.tsx:81 | Decimal digits, non-empty, with no leading zero. |
| Create.NatStringValue | src/app/create/page.tsx:81 | Reading the decimal digits of n back gives n. |
| Create.ParseUnsignedDigits | src/app/create/page.tsx:81 | The unsigned part of `parseInt` reads back a decimal numeral followed by a non-digit. |
| Create.ParseInt | src/app/create/page.tsx:81 | Blank input gives NaN (null). A first non-space character that is a decimal digit (and not the start of `0x`) gives a number. Any other character except a sign gives NaN. Its round trip is stated by Create.ParseIntDecimal. |
| Create.ParseIntDecimal | src/app/create/page.tsx:81 | `parseInt` reads back any integer written in decimal, followed by any text that does not extend it. |
| Create.ParseIntUnsigned | src/app/create/page.tsx:81 | This is the non-negative case of the round trip. |
| Create.ParseIntSigned | src/app/create/page.tsx:81 | This is the negative case of the round trip. |
| Create.ParseIntNoSign | src/app/create/page.tsx:81 | Starting with a digit, `parseInt` is its unsigned part. |
| Create.ParseIntMinus | src/app/create/page.tsx:81 | A leading `-` negates the unsigned part. |
| Create.DigitRunOfDigits | src/app/create/page.tsx:81 | The digit run of digits followed by a non-digit is all the digits. |
| Create.ParseIntBlank | src/app/create/page.tsx:81 | A blank string parses to NaN (null). |
| Create.WithEvent | src/app/create/page.tsx:129 | Choosing an event sets it, clears the distance and keeps the rest of the form. |
| Create.NewEventNeedsDistance | src/app/create/page.tsx:129 | Right after an event change the form fails the required-field check. |
| Create.NullIfEmpty | src/app/create/page.tsx:83-84 | `x \|\| null`: null iff empty, else the same string. |
| Create.BuildInsert | src/app/create/page.tsx:68-86 | The status is `waiting` and the asking price is `parseInt` of the field. Gender and sizes are null exactly when their item is unchecked. The minimum price is set only for hidden mode with a non-empty field. Meetup and note are null iff empty. The other fields are copied. |
| Create.TypedPriceStored | src/app/create/page.tsx:81 | A price typed as the decimal digits of p is stored as p. |
| Create.CreatePage.SelectEvent | src/app/create/page.tsx:129 | The form becomes `WithEvent` of the old form and nothing else changes. |
| Create.CreatePage.HandleSubmit | src/app/create/page.tsx:53-97 | Missing fields: error message, no insert. No user: redirect to `/login?redirect=/create`, no insert. Otherwise exactly one insert of `BuildInsert`. An insert error is shown. Success sets the flag and schedules `/search`. |
| Home.WaitingCountRows | src/app/page.tsx:19-22 | Each count row is the `event_id` and `type` of a waiting listing of the table. Per event and type, Home.WaitingRowsCount states the count. |
| Home.CountMapOf | src/app/page.tsx:25-29 | Every entry of the finished map has been incremented at least once. Its counts are stated by Home.CountMapCounts and its keys by Home.CountMapKeys. |
| Home.BuildCountMap | src/app/page.tsx:25-29 | The loop's dictionary equals the fold of one step per row. A null query result gives the empty map. |
| Home.StepIncrementsOne | src/app/page.tsx:26-28 | One row increments exactly the counter of its type for its event by one. Every other entry is unchanged. The keys grow by its event. |
| Home.CountMapCounts | src/app/page.tsx:25-29 | After the loop each event shows its number of sell rows and of buy rows. |
| Home.CountMapKeys | src/app/page.tsx:27 | An event has an entry iff some row names it. |
| Home.WaitingRowsCount | src/app/page.tsx:19-22 | The count query's rows for an event and type are exactly its waiting listings of that type. Other statuses are never counted. |
| Home.HomeCounts | src/app/page.tsx:19-29 | The home page shows, per event, its numbers of waiting sell and buy listings. |
| Home.MissingEventShowsZero | src/app/page.tsx:63 | An event no row names has no entry and shows {0, 0}. |
| Home.SumOverStep | src/app/page.tsx:28 | One row adds one to the sum of all sell and buy counters. |
| Home.TotalCountOf | src/app/page.tsx:25-29 | Summed over all entries, sell + buy equals the number of rows processed. |
| Matches.MyListings | src/app/matches/page.tsx:25-28 | Exactly the rows of the table whose `user_id` is the user's. |
| Matches.MatchesPage | src/app/matches/page.tsx:9-40 | Signed out iff the login prompt to `/login?redirect=/matches`, whatever the table. A failed query gives three empty sections. |
| Matches.GroupsExact | src/app/matches/page.tsx:25-40 | A listing of the user is in waiting iff `waiting`. It is in matched iff `matching` or `matched`, and in completed iff `completed`. Only the user's own listings are shown. |
| Matches.GroupsDisjoint | src/app/matches/page.tsx:38-40 | The sections are pairwise disjoint and a cancelled listing is in none. |
| Matches.GroupsKeepOrder | src/app/matches/page.tsx:38-40 | Each section keeps the query order. |
| Matches.GroupsPartition | src/app/matches/page.tsx:38-40 | The three sections plus the cancelled listings count every listing of the user once. So the section sizes sum to at most that number. |
| EventPage.Single | src/app/event/page.tsx:11-15 | `.single()` gives a row iff exactly one row has the id, and that row is the one. |
| EventPage.EventPageView | src/app/event/page.tsx:7-17 | A missing or empty id gives not found whatever the tables. Shown iff exactly one event has the id. The shown event is that row. |
| EventPage.ShownListings | src/app/event/page.tsx:20-25 | A listing is shown iff it is in the table, belongs to this event and is waiting. The order of the table is kept. |
| EventPage.CountsAddUp | src/app/event/page.tsx:28-29 | The sell and buy totals count the shown sell and buy listings and add up to all shown listings. |
| EventPage.CardIncludes | src/app/event/page.tsx:63-67 | The pushed badge list equals the bib, shirt, finisher and medal slots, with no other-item badge. The matches page cards build the same list (src/app/matches/page.tsx:62-66). |
| BottomNav.ActiveFlags | src/components/BottomNav.tsx:18-19 | One flag per tab, each the tab's highlight rule. |
| BottomNav.TabOrder | src/components/BottomNav.tsx:6-12 | Exactly five tabs: `/`, `/search`, `/create`, `/matches`, `/profile`. |
| BottomNav.HomeActive | src/components/BottomNav.tsx:19 | Home is active iff the path is exactly `/`. |
| BottomNav.OtherTabActive | src/components/BottomNav.tsx:19 | Any other tab is active iff the path starts with its link. |
| BottomNav.AtMostOneActive | src/components/BottomNav.tsx:6-19 | No two tabs are active on the same path. |
| BottomNav.OnlyHomeOnRoot | src/components/BottomNav.tsx:6-19 | On `/` only home is active. |
| Seqs.Filter | src/app/matches/page.tsx:38-40 | `filter`: no longer than the input. Every kept element passes and is from the input. Every passing element is kept. |
| Seqs.FilterMember | src/app/matches/page.tsx:38-40 | `filter` keeps an element iff it is in the input and passes. |
| Seqs.FilterIsSubsequence | src/app/search/page.tsx:71 | `filter` keeps the input's order. |
| Seqs.FilterComplement | src/app/event/page.tsx:28-29 | Complementary filters split the input. |
| Seqs.FilterDisjointUnion | src/app/matches/page.tsx:38-40 | Disjoint filters keep as many elements as their disjunction. |
| Seqs.PresentAt | src/app/search/page.tsx:169-174 | A pushed value sits at the number of values pushed before it. |

## Left out

- Supabase itself is not modelled: queries, inserts, updates, authentication
  and storage. Their results are parameters:
  - the table a query reads;
  - `None` for a failed query;
  - the signed-in user;
  - the upload and update errors;
  - the public URL.

  The query filters of three pages are modelled over the table they read:
  - `status = waiting` on the home page;
  - `user_id` on the matches page;
  - `id` with `.single()`, then `event_id` and `status = waiting`, on the
    event page.

  Other query results are taken as given:
  - the listings of the search page, whose `status = waiting` filter
    (src/app/search/page.tsx:31) is not modelled;
  - its `user_stats` rows;
  - the profile page's user and stats rows (`.eq(...).single()`).

  Ordering (`order`, newest first) and `limit(50)` are not modelled: the model
  keeps the order of the table it is given.
- The events list of the home and create pages is not modelled. It uses
  `is_active`, a date cutoff against today and ordering by date, and depends
  on the clock. Date formatting with `toLocaleDateString` is also left out.
- The cache buster `Date.now()` is the `stamp` parameter of the upload handler.
- `setTimeout` is recorded as a scheduled navigation to `/search`, and the
  1500 ms delay is dropped. Router navigation is recorded as a list of paths.
- The average rating is an exact rational. `toFixed(1)` and the star rounding
  of the profile page are floating-point display and are not modelled.
- Text.ToLower: only Basic Latin letters are lower-cased. JavaScript's full
  Unicode case mapping is not modelled. That mapping does not change Thai.
- Create.ParseInt: the digit value is an unbounded integer. Rounding of
  numbers beyond 2^53 to the nearest double is not modelled. `Infinity` and
  numeric separators do not arise in `parseInt`.
- Text.Trim: the white-space set is the ECMAScript WhiteSpace and
  LineTerminator characters, written out as a fixed list.
- Search.StatsFor: the `in('user_id', userIds)` stats query is modelled by
  looking the user up in the returned rows. Duplicate rows for one user
  resolve to the last one, as the `forEach` overwrite does.
- Matches: the `matches` query of the matches page (lines 32-36) is fetched
  but its result is never used on the page, so it is not modelled.
- JSX rendering, styling, the emoji and caption strings other than the
  badges and alerts, `Header`, `layout.tsx` and the login page are not
  modelled.
- The offer page (`src/app/offer/[id]/page.tsx`) is not part of this model.
  That covers its hidden-price midpoint, offer submission and the
  listing/offer state changes.
- Profile.AvatarUploader.HandleAvatarUpload: the contract records the
  `uploading` flag only at the end of the call. The intermediate `true` that
  React shows while the upload is in flight is left out.
