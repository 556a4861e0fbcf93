/** The matches page: a signed-in user's own listings, grouped by status into
    the waiting, matched and completed sections. */
module Matches {
  import opened Wrappers
  import opened Listings
  import Seqs

  /** Where the login prompt of a signed-out visitor leads. */
  const LoginRedirect: string := "/login?redirect=/matches"

  /** What the page renders: the login prompt, or the three sections. */
  datatype MatchesView =
    | LoginPrompt(loginHref: string)
    | Groups(waiting: seq<Listing>, matched: seq<Listing>, completed: seq<Listing>)

  predicate IsWaiting(l: Listing) { l.status == Waiting }

  /** `['matching', 'matched'].includes(l.status)`. */
  predicate IsMatched(l: Listing) { l.status == Matching || l.status == Matched }

  predicate IsCompleted(l: Listing) { l.status == Completed }

  predicate IsCancelled(l: Listing) { l.status == Cancelled }

  /** The listing query: the rows of the `listings` table whose `user_id` is the user's. */
  function MyListings(table: seq<Listing>, userId: string): (mine: seq<Listing>)
    ensures forall i :: 0 <= i < |mine| ==> mine[i] in table && mine[i].userId == userId
    ensures forall i :: 0 <= i < |table| && table[i].userId == userId ==> table[i] in mine
  {
    Seqs.Filter(table, (l: Listing) => l.userId == userId)
  }

  /** The page for the signed-in `user` (its id), given the `listings` table;
      `None` for the table is a failed query, which `|| []` turns into empty
      sections. A signed-out visitor gets the login prompt, whatever the table. */
  function MatchesPage(user: Option<string>, table: Option<seq<Listing>>): (v: MatchesView)
    ensures user.None? <==> v == LoginPrompt(LoginRedirect)
    ensures user.Some? && table.None? ==> v == Groups([], [], [])
  {
    if user.None? then LoginPrompt(LoginRedirect)
    else
      var mine := MyListings(table.GetOr([]), user.value);
      Groups(Seqs.Filter(mine, IsWaiting), Seqs.Filter(mine, IsMatched), Seqs.Filter(mine, IsCompleted))
  }

  /** Each section holds exactly the user's listings in its statuses: every
      listing shown belongs to the user and has the section's status, and
      every listing of the user with that status is shown. */
  lemma GroupsExact(userId: string, table: seq<Listing>, l: Listing)
    ensures var v := MatchesPage(Some(userId), Some(table));
      l in table && l.userId == userId ==>
        (l in v.waiting <==> IsWaiting(l)) && (l in v.matched <==> IsMatched(l))
        && (l in v.completed <==> IsCompleted(l))
    ensures var v := MatchesPage(Some(userId), Some(table));
      (l in v.waiting || l in v.matched || l in v.completed) ==> l in table && l.userId == userId
  {
    var mine := MyListings(table, userId);
    Seqs.FilterMember(table, (l: Listing) => l.userId == userId, l);
    Seqs.FilterMember(mine, IsWaiting, l);
    Seqs.FilterMember(mine, IsMatched, l);
    Seqs.FilterMember(mine, IsCompleted, l);
  }

  /** The sections are pairwise disjoint, and a cancelled listing is in none. */
  lemma GroupsDisjoint(userId: string, table: seq<Listing>, l: Listing)
    ensures var v := MatchesPage(Some(userId), Some(table));
      !(l in v.waiting && l in v.matched) && !(l in v.waiting && l in v.completed)
      && !(l in v.matched && l in v.completed)
    ensures var v := MatchesPage(Some(userId), Some(table));
      IsCancelled(l) ==> l !in v.waiting && l !in v.matched && l !in v.completed
  {
    var mine := MyListings(table, userId);
    Seqs.FilterMember(mine, IsWaiting, l);
    Seqs.FilterMember(mine, IsMatched, l);
    Seqs.FilterMember(mine, IsCompleted, l);
  }

  /** Every section keeps the order of the listing query. */
  lemma GroupsKeepOrder(userId: string, table: seq<Listing>)
    ensures var v := MatchesPage(Some(userId), Some(table));
      var mine := MyListings(table, userId);
      Seqs.Subsequence(v.waiting, mine) && Seqs.Subsequence(v.matched, mine)
      && Seqs.Subsequence(v.completed, mine)
  {
    var mine := MyListings(table, userId);
    Seqs.FilterIsSubsequence(mine, IsWaiting);
    Seqs.FilterIsSubsequence(mine, IsMatched);
    Seqs.FilterIsSubsequence(mine, IsCompleted);
  }

  /** With the cancelled ones, the sections account for every listing of the
      user exactly once; so together they never hold more than the user has. */
  lemma GroupsPartition(userId: string, table: seq<Listing>)
    ensures var v := MatchesPage(Some(userId), Some(table));
      var mine := MyListings(table, userId);
      |v.waiting| + |v.matched| + |v.completed| + |Seqs.Filter(mine, IsCancelled)| == |mine|
    ensures var v := MatchesPage(Some(userId), Some(table));
      |v.waiting| + |v.matched| + |v.completed| <= |MyListings(table, userId)|
  {
    var mine := MyListings(table, userId);
    var open := (l: Listing) => IsWaiting(l) || IsMatched(l);
    var shown := (l: Listing) => open(l) || IsCompleted(l);
    Seqs.FilterDisjointUnion(mine, IsWaiting, IsMatched, open);
    Seqs.FilterDisjointUnion(mine, open, IsCompleted, shown);
    Seqs.FilterComplement(mine, shown, IsCancelled);
  }
}
