/** The home page's per-event counters: how many waiting listings sell or
    look for a bib of each event, built by incrementing a dictionary once per
    row of the count query. */
module Home {
  import opened Wrappers
  import opened Listings

  /** A row of the count query: `select('event_id, type')`. */
  datatype CountRow = CountRow(eventId: string, kind: Kind)

  /** One entry of `countMap`. */
  datatype Counts = Counts(sell: nat, buy: nat)

  /** The rows the count query returns from `listings`: the `event_id` and
      `type` of every listing whose status is `waiting`, and nothing else. */
  function WaitingCountRows(table: seq<Listing>): (rows: seq<CountRow>)
    ensures |rows| <= |table|
    ensures forall r :: r in rows ==>
      exists l :: l in table && l.status == Waiting && r == CountRow(l.eventId, l.kind)
  {
    if table == [] then []
    else
      var n := |table| - 1;
      var l := table[n];
      var prev := WaitingCountRows(table[..n]);
      assert forall x :: x in table[..n] ==> x in table;
      prev + (if l.status == Waiting then [CountRow(l.eventId, l.kind)] else [])
  }

  /** Reference count: the waiting listings of `table` for event `e` with type `k`. */
  function ListingCount(table: seq<Listing>, e: string, k: Kind): nat
  {
    if table == [] then 0
    else
      var l := table[|table| - 1];
      ListingCount(table[..|table| - 1], e, k) + (if l.status == Waiting && l.eventId == e && l.kind == k then 1 else 0)
  }

  /** The rows of `rows` for event `e` with type `k`. */
  function RowCount(rows: seq<CountRow>, e: string, k: Kind): nat
  {
    if rows == [] then 0
    else RowCount(rows[..|rows| - 1], e, k) + (if rows[|rows| - 1] == CountRow(e, k) then 1 else 0)
  }

  /** What the page shows for an event: its entry, or `{ sell: 0, buy: 0 }`
      when the event has none. */
  function CountsFor(m: map<string, Counts>, e: string): Counts
  {
    if e in m then m[e] else Counts(0, 0)
  }

  /** One pass of the `forEach` body: create the entry if it is missing, then
      increment the counter named by the row's type. */
  function Step(m: map<string, Counts>, row: CountRow): map<string, Counts>
  {
    var c := CountsFor(m, row.eventId);
    m[row.eventId := if row.kind == Sell then c.(sell := c.sell + 1) else c.(buy := c.buy + 1)]
  }

  /** The dictionary after the `forEach` has processed `rows` in order. */
  function CountMapOf(rows: seq<CountRow>): (m: map<string, Counts>)
    ensures forall e :: e in m ==> m[e].sell + m[e].buy >= 1
  {
    if rows == [] then map[] else Step(CountMapOf(rows[..|rows| - 1]), rows[|rows| - 1])
  }

  /** The count map of the home page, built by mutating a dictionary in a loop;
      a failed query (`listingCounts` null) leaves it empty. */
  method BuildCountMap(listingCounts: Option<seq<CountRow>>) returns (countMap: map<string, Counts>)
    ensures listingCounts.None? ==> countMap == map[]
    ensures listingCounts.Some? ==> countMap == CountMapOf(listingCounts.value)
  {
    countMap := map[];
    if listingCounts.None? {
      return;
    }
    var rows := listingCounts.value;
    var i := 0;
    while i < |rows|
      invariant 0 <= i <= |rows|
      invariant countMap == CountMapOf(rows[..i])
    {
      var l := rows[i];
      if l.eventId !in countMap {
        countMap := countMap[l.eventId := Counts(0, 0)];
      }
      var c := countMap[l.eventId];
      if l.kind == Sell {
        countMap := countMap[l.eventId := c.(sell := c.sell + 1)];
      } else {
        countMap := countMap[l.eventId := c.(buy := c.buy + 1)];
      }
      assert rows[..i + 1][..i] == rows[..i];
      i := i + 1;
    }
    assert rows[..i] == rows;
  }

  /** Processing one row increments exactly one counter of its event by one,
      and leaves every other event's entry as it was. */
  lemma StepIncrementsOne(m: map<string, Counts>, row: CountRow, e: string)
    ensures e != row.eventId ==> CountsFor(Step(m, row), e) == CountsFor(m, e)
    ensures e == row.eventId && row.kind == Sell ==>
      CountsFor(Step(m, row), e) == Counts(CountsFor(m, e).sell + 1, CountsFor(m, e).buy)
    ensures e == row.eventId && row.kind == Buy ==>
      CountsFor(Step(m, row), e) == Counts(CountsFor(m, e).sell, CountsFor(m, e).buy + 1)
    ensures Step(m, row).Keys == m.Keys + {row.eventId}
  {
  }

  /** After the loop, each event's counters are the numbers of its rows of
      each type. */
  lemma {:induction false} CountMapCounts(rows: seq<CountRow>, e: string)
    ensures CountsFor(CountMapOf(rows), e) == Counts(RowCount(rows, e, Sell), RowCount(rows, e, Buy))
  {
    if rows != [] {
      CountMapCounts(rows[..|rows| - 1], e);
      StepIncrementsOne(CountMapOf(rows[..|rows| - 1]), rows[|rows| - 1], e);
    }
  }

  /** An event has an entry exactly when some row names it. */
  lemma {:induction false} CountMapKeys(rows: seq<CountRow>, e: string)
    ensures e in CountMapOf(rows) <==> exists i :: 0 <= i < |rows| && rows[i].eventId == e
  {
    if rows != [] {
      var n := |rows| - 1;
      CountMapKeys(rows[..n], e);
      StepIncrementsOne(CountMapOf(rows[..n]), rows[n], e);
      if e in CountMapOf(rows) && rows[n].eventId != e {
        var i :| 0 <= i < n && rows[..n][i].eventId == e;
        assert rows[i].eventId == e;
      }
      if exists i :: 0 <= i < |rows| && rows[i].eventId == e {
        var i :| 0 <= i < |rows| && rows[i].eventId == e;
        if i < n {
          assert rows[..n][i].eventId == e;
        }
      }
    }
  }

  /** The count query keeps, for each event and type, exactly the waiting
      listings: listings in any other status are never counted. */
  lemma {:induction false} WaitingRowsCount(table: seq<Listing>, e: string, k: Kind)
    ensures RowCount(WaitingCountRows(table), e, k) == ListingCount(table, e, k)
  {
    if table != [] {
      var n := |table| - 1;
      WaitingRowsCount(table[..n], e, k);
      var prev := WaitingCountRows(table[..n]);
      if table[n].status == Waiting {
        var rows := prev + [CountRow(table[n].eventId, table[n].kind)];
        assert rows[..|rows| - 1] == prev;
      } else {
        assert WaitingCountRows(table) == prev;
      }
    }
  }

  /** What the home page shows for event `e`: the numbers of its waiting sell
      and buy listings, `{0, 0}` when it has none. */
  lemma HomeCounts(table: seq<Listing>, e: string)
    ensures CountsFor(CountMapOf(WaitingCountRows(table)), e)
      == Counts(ListingCount(table, e, Sell), ListingCount(table, e, Buy))
  {
    var rows := WaitingCountRows(table);
    CountMapCounts(rows, e);
    WaitingRowsCount(table, e, Sell);
    WaitingRowsCount(table, e, Buy);
  }

  /** An event that no row names has no entry and shows `{0, 0}`. */
  lemma MissingEventShowsZero(rows: seq<CountRow>, e: string)
    requires forall i :: 0 <= i < |rows| ==> rows[i].eventId != e
    ensures e !in CountMapOf(rows)
    ensures CountsFor(CountMapOf(rows), e) == Counts(0, 0)
  {
    CountMapKeys(rows, e);
  }

  /** No key is listed twice. */
  predicate Distinct(ks: seq<string>)
  {
    forall i, j :: 0 <= i < j < |ks| ==> ks[i] != ks[j]
  }

  /** `sell + buy` summed over the entries for the events `ks`. */
  function SumOver(m: map<string, Counts>, ks: seq<string>): nat
  {
    if ks == [] then 0
    else
      var c := CountsFor(m, ks[|ks| - 1]);
      SumOver(m, ks[..|ks| - 1]) + c.sell + c.buy
  }

  /** One row adds one to the sum over any list of events that names its
      event once, and nothing to one that does not name it. */
  lemma {:induction false} SumOverStep(m: map<string, Counts>, row: CountRow, ks: seq<string>)
    requires Distinct(ks)
    ensures SumOver(Step(m, row), ks) == SumOver(m, ks) + (if row.eventId in ks then 1 else 0)
  {
    if ks != [] {
      var n := |ks| - 1;
      var front := ks[..n];
      assert Distinct(front);
      SumOverStep(m, row, front);
      StepIncrementsOne(m, row, ks[n]);
      assert ks == front + [ks[n]];
      assert ks[n] !in front;
    }
  }

  /** The counters of all events add up to the number of rows processed:
      summed over any list of events that names each entry exactly once
      (and may name events without one), the total is `|rows|`. */
  lemma {:induction false} TotalCountOf(rows: seq<CountRow>, ks: seq<string>)
    requires Distinct(ks)
    requires forall e :: e in CountMapOf(rows) ==> e in ks
    ensures SumOver(CountMapOf(rows), ks) == |rows|
  {
    if rows == [] {
      SumOverEmpty(ks);
    } else {
      var n := |rows| - 1;
      var m := CountMapOf(rows[..n]);
      StepIncrementsOne(m, rows[n], rows[n].eventId);
      TotalCountOf(rows[..n], ks);
      SumOverStep(m, rows[n], ks);
    }
  }

  lemma {:induction false} SumOverEmpty(ks: seq<string>)
    ensures SumOver(map[], ks) == 0
  {
    if ks != [] {
      SumOverEmpty(ks[..|ks| - 1]);
    }
  }
}
