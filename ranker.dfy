/** The market-cap variation ranker: for every ticker of both markets, the
    change of its market capitalisation over a period, then the table of
    those changes by decreasing size. */
module Ranker {

  import opened Wrappers
  import opened RangeResolver
  import opened Fundamentals

  /** The labels of the ranker's period selectbox. */
  const VARIATION_TIME_RANGE_OPTIONS: seq<string> := ["1j", "1s", "1m", "6m", "1y"]

  /** What the remote data source answers. `info` holds the snapshot of
      every ticker whose lookup succeeds; `close[(ticker, start, end)]` is the
      Close value of the history downloaded for that window, absent when the
      download raises or yields no usable value. */
  datatype Market = Market(info: map<string, Info>, close: map<(string, Date, Date), real>)

  /** The ranker's own start date. It looks one day back for "1j" (the chart
      looks back none) and has no start for the tags its if-chain omits, where
      the script's name is unbound and the lookup raises. */
  function RankerStart(t: Tag, today: Date): (r: Option<Date>)
    ensures r.Some? <==> t in {Day, Week, Month, SixMonths, Year}
    ensures t == Day ==> r == Some(today - 1)
    ensures r.Some? && t != Day ==> r.value == today - LookbackDays(t)
  {
    match t
    case Day => Some(today - 1)
    case Week => Some(today - 7)
    case Month => Some(today - 30)
    case SixMonths => Some(today - 182)
    case Year => Some(today - 365)
    case _ => None
  }

  /** The ranker's download window: from its start date up to today,
      exclusive. */
  function RankerWindow(t: Tag, today: Date): (w: Option<(Date, Date)>)
    ensures w.Some? <==> RankerStart(t, today).Some?
    ensures w.Some? ==> w.value.0 == RankerStart(t, today).value && w.value.1 == today
    ensures w.Some? ==> w.value.0 < w.value.1
  {
    match RankerStart(t, today)
    case None => None
    case Some(start) => Some((start, today))
  }

  /** Against the chart, the ranker's window ends a day earlier, starts on
      the same day for every period but "1j", and one day earlier for "1j". */
  lemma RankerWindowAgainstChart(t: Tag, today: Date, pick: (Date, Date))
    requires t in {Day, Week, Month, SixMonths, Year}
    ensures RankerWindow(t, today).Some?
    ensures RankerWindow(t, today).value.1 == Resolve(t, today, pick).end - 1
    ensures t != Day ==> RankerWindow(t, today).value.0 == Resolve(t, today, pick).start
    ensures t == Day ==> RankerWindow(t, today).value.0 == Resolve(t, today, pick).start - 1
  {
  }

  /** Every period the ranker's selectbox offers has a start date. */
  lemma RankerOptionsHaveStart(today: Date)
    ensures forall i :: 0 <= i < |VARIATION_TIME_RANGE_OPTIONS| ==>
      Parse(VARIATION_TIME_RANGE_OPTIONS[i]).Some? &&
      RankerStart(Parse(VARIATION_TIME_RANGE_OPTIONS[i]).value, today).Some?
  {
  }

  /** A ticker's change: the signed market-cap difference and the relative
      price change (`None` when the former price is zero, where the script
      divides by zero and gets an infinite or undefined value). */
  datatype Variation = Variation(amount: real, percentage: Option<real>)

  /** Everything the computation for `ticker` needs is there: a snapshot with
      a price and a share count, a start date for the period, and a former
      close for the window. */
  predicate Available(ticker: string, period: Tag, today: Date, market: Market)
  {
    && ticker in market.info
    && market.info[ticker].regularMarketPrice.Some?
    && market.info[ticker].sharesOutstanding.Some?
    && RankerWindow(period, today).Some?
    && (ticker, RankerWindow(period, today).value.0, RankerWindow(period, today).value.1) in market.close
  }

  /** The former close of an available ticker. */
  function FormerPrice(ticker: string, period: Tag, today: Date, market: Market): real
    requires Available(ticker, period, today, market)
  {
    market.close[(ticker, RankerWindow(period, today).value.0, RankerWindow(period, today).value.1)]
  }

  /** Market capitalisation at a price. */
  function Cap(price: real, shares: int): real
  {
    price * shares as real
  }

  /** The per-ticker computation: `None` (the script's `(None, None)`) when
      any input is missing or its lookup raises, otherwise the market cap now
      minus the market cap at the former price, and the price change
      relative to the former price. */
  function MarketCapVariation(ticker: string, period: Tag, today: Date, market: Market): (r: Option<Variation>)
    ensures r.Some? <==> Available(ticker, period, today, market)
    ensures r.Some? ==>
      var info := market.info[ticker];
      var last, former := info.regularMarketPrice.value, FormerPrice(ticker, period, today, market);
      && r.value.amount == Cap(last, info.sharesOutstanding.value) - Cap(former, info.sharesOutstanding.value)
      && (r.value.percentage.Some? <==> former != 0.0)
      && (r.value.percentage.Some? ==> former * (1.0 + r.value.percentage.value) == last)
  {
    if ticker !in market.info then None
    else
      var info := market.info[ticker];
      var shares := info.sharesOutstanding;
      if info.regularMarketPrice.None? then None
      else
        var last := info.regularMarketPrice.value;
        match RankerWindow(period, today)
        case None => None
        case Some((start, end)) =>
          if (ticker, start, end) !in market.close then None
          else
            var former := market.close[(ticker, start, end)];
            if shares.None? then None
            else
              var variation := (last - former) * shares.value as real;
              var percentage := if former == 0.0 then None else Some((last - former) / former);
              Some(Variation(variation, percentage))
  }

  /** One row of `variations_list`. */
  datatype Record = Record(ticker: string, variation: real, percentage: Option<real>)

  /** The row a ticker contributes, if any. */
  function RecordFor(ticker: string, period: Tag, today: Date, market: Market): (r: Option<Record>)
    ensures r.Some? <==> Available(ticker, period, today, market)
    ensures r.Some? ==> r.value.ticker == ticker
    ensures r.Some? ==>
      && r.value.variation == MarketCapVariation(ticker, period, today, market).value.amount
      && r.value.percentage == MarketCapVariation(ticker, period, today, market).value.percentage
  {
    match MarketCapVariation(ticker, period, today, market)
    case None => None
    case Some(v) => Some(Record(ticker, v.amount, v.percentage))
  }

  /** The rows the loop has appended after visiting `order`. */
  function Kept(order: seq<string>, period: Tag, today: Date, market: Market): seq<Record>
    decreases |order|
  {
    if order == [] then []
    else
      var rest := Kept(order[..|order| - 1], period, today, market);
      match RecordFor(order[|order| - 1], period, today, market)
      case None => rest
      case Some(r) => rest + [r]
  }

  /** The tickers of both markets, duplicates merged. */
  function Universe(sp500: seq<string>, cac40: seq<string>): (u: set<string>)
    ensures forall t :: t in u <==> t in sp500 || t in cac40
  {
    set t | t in sp500 + cac40
  }

  predicate Distinct<T(==)>(s: seq<T>)
  {
    forall i, j :: 0 <= i < j < |s| ==> s[i] != s[j]
  }

  /** `order` lists the elements of `u`, each once: any order in which
      `list(set(...))` may come out. */
  ghost predicate Enumerates(order: seq<string>, u: set<string>)
  {
    Distinct(order) && forall t :: t in order <==> t in u
  }

  function Tickers(rs: seq<Record>): (ts: seq<string>)
    ensures |ts| == |rs| && forall k :: 0 <= k < |rs| ==> ts[k] == rs[k].ticker
  {
    if rs == [] then [] else [rs[0].ticker] + Tickers(rs[1..])
  }

  /** Every kept row is the row of a visited ticker whose computation
      succeeded, and there are no more rows than tickers. */
  lemma {:induction false} KeptSound(order: seq<string>, period: Tag, today: Date, market: Market)
    ensures var kept := Kept(order, period, today, market);
      && |kept| <= |order|
      && forall k :: 0 <= k < |kept| ==>
           kept[k].ticker in order && RecordFor(kept[k].ticker, period, today, market) == Some(kept[k])
  {
    if order != [] {
      var init := order[..|order| - 1];
      KeptSound(init, period, today, market);
      assert forall t :: t in init ==> t in order;
    }
  }

  /** Every visited ticker whose computation succeeds has a row. */
  lemma {:induction false} KeptComplete(order: seq<string>, period: Tag, today: Date, market: Market)
    ensures forall t :: t in order && Available(t, period, today, market) ==>
      t in Tickers(Kept(order, period, today, market))
  {
    if order != [] {
      var init := order[..|order| - 1];
      var last := order[|order| - 1];
      KeptComplete(init, period, today, market);
      assert forall t :: t in order ==> t in init || t == last;
      var rest := Kept(init, period, today, market);
      match RecordFor(last, period, today, market)
      case None =>
      case Some(r) =>
        assert Tickers(rest + [r]) == Tickers(rest) + [last];
    }
  }

  /** When the tickers are visited once each, no ticker has two rows. */
  lemma {:induction false} KeptDistinct(order: seq<string>, period: Tag, today: Date, market: Market)
    requires Distinct(order)
    ensures Distinct(Tickers(Kept(order, period, today, market)))
  {
    if order != [] {
      var init := order[..|order| - 1];
      var last := order[|order| - 1];
      KeptDistinct(init, period, today, market);
      KeptSound(init, period, today, market);
      assert last !in init;
      var rest := Kept(init, period, today, market);
      match RecordFor(last, period, today, market)
      case None =>
      case Some(r) =>
        assert Tickers(rest + [r]) == Tickers(rest) + [last];
        assert forall k :: 0 <= k < |rest| ==> rest[k].ticker != last;
    }
  }

  /** The ranking loop: visits every ticker once, in `order`, and appends the
      row of each one whose computation succeeds. */
  method CollectVariations(order: seq<string>, period: Tag, today: Date, market: Market)
    returns (variations: seq<Record>)
    ensures variations == Kept(order, period, today, market)
  {
    variations := [];
    for i := 0 to |order|
      invariant variations == Kept(order[..i], period, today, market)
    {
      var t := order[i];
      assert order[..i + 1][..i] == order[..i];
      var v := MarketCapVariation(t, period, today, market);
      if v.Some? {
        variations := variations + [Record(t, v.value.amount, v.value.percentage)];
      }
    }
    assert order[..|order|] == order;
  }

  /** A row of the displayed table: a record with its `AbsVariation` column. */
  datatype Row = Row(ticker: string, variation: real, percentage: Option<real>, absVariation: real)

  /** No ticker has two rows. */
  predicate DistinctTickers(rows: seq<Row>)
  {
    forall i, j :: 0 <= i < j < |rows| ==> rows[i].ticker != rows[j].ticker
  }

  function Abs(x: real): (a: real)
    ensures a >= 0.0 && (a == x || a == -x)
  {
    if x < 0.0 then -x else x
  }

  /** The table's row for a record; its sort key is the size of the change. */
  function ToRow(r: Record): (row: Row)
    ensures row.ticker == r.ticker && row.variation == r.variation && row.percentage == r.percentage
    ensures row.absVariation >= 0.0 && (row.absVariation == r.variation || row.absVariation == -r.variation)
  {
    Row(r.ticker, r.variation, r.percentage, Abs(r.variation))
  }

  function ToRows(rs: seq<Record>): (rows: seq<Row>)
    ensures |rows| == |rs| && forall k :: 0 <= k < |rs| ==> rows[k] == ToRow(rs[k])
  {
    if rs == [] then [] else [ToRow(rs[0])] + ToRows(rs[1..])
  }

  /** The key column does not increase down the table. */
  predicate Descending(rows: seq<Row>)
  {
    forall i, j :: 0 <= i < j < |rows| ==> rows[i].absVariation >= rows[j].absVariation
  }

  /** A row with a key at least that of the first row of a descending table
      can head it. */
  lemma ConsDescending(y: Row, rows: seq<Row>)
    requires Descending(rows)
    requires rows != [] ==> y.absVariation >= rows[0].absVariation
    ensures Descending([y] + rows)
  {
  }

  /** Places `x` in a descending table, before the first row with a smaller
      key. */
  function Insert(x: Row, rows: seq<Row>): (r: seq<Row>)
    requires Descending(rows)
    ensures multiset(r) == multiset(rows) + multiset{x}
    ensures Descending(r)
    ensures r != [] && (r[0] == x || (rows != [] && r[0] == rows[0]))
  {
    if rows == [] || x.absVariation >= rows[0].absVariation then
      ConsDescending(x, rows);
      [x] + rows
    else
      var tail := Insert(x, rows[1..]);
      assert rows == [rows[0]] + rows[1..];
      ConsDescending(rows[0], tail);
      [rows[0]] + tail
  }

  /** `sort_values(by="AbsVariation", ascending=False)`, up to the order of
      rows with equal keys, which the library's unstable sort leaves open. */
  function SortByAbsVariation(rows: seq<Row>): (r: seq<Row>)
    ensures multiset(r) == multiset(rows)
    ensures Descending(r)
  {
    if rows == [] then []
    else
      assert rows == [rows[0]] + rows[1..];
      Insert(rows[0], SortByAbsVariation(rows[1..]))
  }

  /** Removing one row keeps a table descending. */
  lemma RemoveDescending(b: seq<Row>, j: nat)
    requires Descending(b) && j < |b|
    ensures Descending(b[..j] + b[j + 1..])
  {
  }

  /** In descending tables with the same rows, the first keys agree. */
  lemma HeadKeysAgree(a: seq<Row>, b: seq<Row>)
    requires multiset(a) == multiset(b) && Descending(a) && Descending(b) && a != [] && b != []
    ensures a[0].absVariation == b[0].absVariation
  {
    assert a[0] in multiset(b);
    assert b[0] in multiset(a);
    var j :| 0 <= j < |b| && b[j] == a[0];
    var m :| 0 <= m < |a| && a[m] == b[0];
  }

  /** Two descending tables with the same rows have the same key column:
      whatever tie order the library picks, the i-th largest change is the
      same. */
  lemma {:induction false} KeyColumnDetermined(a: seq<Row>, b: seq<Row>)
    requires multiset(a) == multiset(b) && Descending(a) && Descending(b)
    ensures |a| == |b|
    ensures forall i :: 0 <= i < |a| ==> a[i].absVariation == b[i].absVariation
  {
    assert |a| == |multiset(a)| == |b|;
    if a != [] {
      HeadKeysAgree(a, b);
      var j := Match(a, b);
      var b' := b[..j] + b[j + 1..];
      RemoveHead(a, b, j);
      KeyColumnDetermined(a[1..], b');
      ShiftedKeys(b, j);
      forall i | 0 < i < |a|
        ensures a[i].absVariation == b[i].absVariation
      {
        assert a[i] == a[1..][i - 1];
      }
    }
  }

  /** Where the first row of `a` sits in `b`. */
  lemma Match(a: seq<Row>, b: seq<Row>) returns (j: nat)
    requires multiset(a) == multiset(b) && a != []
    ensures j < |b| && b[j] == a[0]
  {
    assert a[0] in multiset(b);
    j :| 0 <= j < |b| && b[j] == a[0];
  }

  /** Taking the first row off `a` and its copy off `b` leaves two descending
      tables with the same rows. */
  lemma RemoveHead(a: seq<Row>, b: seq<Row>, j: nat)
    requires multiset(a) == multiset(b) && Descending(a) && Descending(b)
    requires a != [] && j < |b| && b[j] == a[0]
    ensures multiset(a[1..]) == multiset(b[..j] + b[j + 1..])
    ensures Descending(a[1..]) && Descending(b[..j] + b[j + 1..])
  {
    RemoveOne(b, j);
    DropFirst(a);
    RemoveDescending(b, j);
  }

  lemma DropFirst(a: seq<Row>)
    requires a != []
    ensures multiset(a[1..]) == multiset(a) - multiset{a[0]}
  {
    assert a == [a[0]] + a[1..];
  }

  /** Removing a row whose key equals the first key shifts the key column of
      the rest of a descending table by one place. */
  lemma ShiftedKeys(b: seq<Row>, j: nat)
    requires Descending(b) && j < |b| && b[j].absVariation == b[0].absVariation
    ensures forall i :: 0 < i < |b| ==> (b[..j] + b[j + 1..])[i - 1].absVariation == b[i].absVariation
  {
  }

  /** Removing the row at `j` removes one copy of it. */
  lemma RemoveOne(b: seq<Row>, j: nat)
    requires j < |b|
    ensures multiset(b[..j] + b[j + 1..]) == multiset(b) - multiset{b[j]}
  {
    assert b == b[..j] + [b[j]] + b[j + 1..];
  }

  /** Any reordering of the kept rows holds only rows of visited tickers
      whose computation succeeded, each with its key column. */
  lemma ReorderedRowsSound(order: seq<string>, period: Tag, today: Date, market: Market, table: seq<Row>)
    requires multiset(table) == multiset(ToRows(Kept(order, period, today, market)))
    ensures forall k :: 0 <= k < |table| ==>
      var row := table[k];
      && row.ticker in order
      && Some(Record(row.ticker, row.variation, row.percentage)) == RecordFor(row.ticker, period, today, market)
      && row.absVariation == Abs(row.variation)
  {
    var kept := Kept(order, period, today, market);
    var rows := ToRows(kept);
    KeptSound(order, period, today, market);
    forall k | 0 <= k < |table|
      ensures var row := table[k];
        && row.ticker in order
        && Some(Record(row.ticker, row.variation, row.percentage)) == RecordFor(row.ticker, period, today, market)
        && row.absVariation == Abs(row.variation)
    {
      assert table[k] in multiset(rows);
      var m :| 0 <= m < |rows| && rows[m] == table[k];
      assert rows[m] == ToRow(kept[m]);
    }
  }

  /** Any reordering of the kept rows has a row for every visited ticker
      whose computation succeeded. */
  lemma ReorderedRowsComplete(order: seq<string>, period: Tag, today: Date, market: Market, table: seq<Row>)
    requires multiset(table) == multiset(ToRows(Kept(order, period, today, market)))
    ensures forall t :: t in order && Available(t, period, today, market) ==>
      exists k :: 0 <= k < |table| && table[k].ticker == t
  {
    var kept := Kept(order, period, today, market);
    var rows := ToRows(kept);
    KeptComplete(order, period, today, market);
    forall t | t in order && Available(t, period, today, market)
      ensures exists k :: 0 <= k < |table| && table[k].ticker == t
    {
      assert t in Tickers(kept);
      var m :| 0 <= m < |kept| && kept[m].ticker == t;
      assert rows[m] in multiset(table);
      var k :| 0 <= k < |table| && table[k] == rows[m];
    }
  }

  /** A sequence has no repeated element exactly when its multiset holds
      every element at most once. */
  lemma {:induction false} DistinctIffSingleCopies<T>(s: seq<T>)
    ensures Distinct(s) <==> forall x :: multiset(s)[x] <= 1
  {
    if s != [] {
      var tail := s[1..];
      DistinctIffSingleCopies(tail);
      assert s == [s[0]] + tail;
      if Distinct(s) {
        assert s[0] !in tail by {
          forall k | 0 <= k < |tail| ensures tail[k] != s[0] {
            assert tail[k] == s[k + 1];
          }
        }
        assert Distinct(tail) by {
          forall i, j | 0 <= i < j < |tail| ensures tail[i] != tail[j] {
            assert tail[i] == s[i + 1] && tail[j] == s[j + 1];
          }
        }
      } else {
        var i, j :| 0 <= i < j < |s| && s[i] == s[j];
        if i == 0 {
          assert s[j] == tail[j - 1];
          assert multiset(s)[s[0]] == multiset(tail)[s[0]] + 1;
        } else {
          assert !Distinct(tail) by {
            assert tail[i - 1] == s[i] && tail[j - 1] == s[j];
          }
          var x :| multiset(tail)[x] > 1;
          assert multiset(s)[x] >= multiset(tail)[x];
        }
      }
    }
  }

  /** Any reordering of the kept rows has at most one row per ticker. */
  lemma ReorderedRowsDistinct(order: seq<string>, period: Tag, today: Date, market: Market, table: seq<Row>)
    requires Distinct(order)
    requires multiset(table) == multiset(ToRows(Kept(order, period, today, market)))
    ensures DistinctTickers(table)
  {
    var kept := Kept(order, period, today, market);
    var rows := ToRows(kept);
    KeptDistinct(order, period, today, market);
    assert Distinct(rows) by {
      forall i, j | 0 <= i < j < |rows| ensures rows[i] != rows[j] {
        assert Tickers(kept)[i] == rows[i].ticker && Tickers(kept)[j] == rows[j].ticker;
      }
    }
    DistinctIffSingleCopies(rows);
    DistinctIffSingleCopies(table);
    ReorderedRowsSound(order, period, today, market, table);
  }


  /** What the ranking section shows. */
  datatype Table = NothingToShow | Ranked(rows: seq<Row>)

  /** The whole ranking: visit every ticker of both markets once, keep the
      records that could be computed, and show them by decreasing size of
      change, or say there is nothing to show. */
  method RankVariations(sp500: seq<string>, cac40: seq<string>, order: seq<string>,
                        period: Tag, today: Date, market: Market)
    returns (table: Table)
    requires Enumerates(order, Universe(sp500, cac40))
    ensures table.NothingToShow? <==> Kept(order, period, today, market) == []
    ensures table.Ranked? ==>
      && multiset(table.rows) == multiset(ToRows(Kept(order, period, today, market)))
      && Descending(table.rows)
    ensures table.Ranked? ==> forall k :: 0 <= k < |table.rows| ==>
      var row := table.rows[k];
      && (row.ticker in sp500 || row.ticker in cac40)
      && Some(Record(row.ticker, row.variation, row.percentage)) == RecordFor(row.ticker, period, today, market)
      && row.absVariation == Abs(row.variation)
    ensures table.Ranked? ==> forall t :: (t in sp500 || t in cac40) && Available(t, period, today, market) ==>
      exists k :: 0 <= k < |table.rows| && table.rows[k].ticker == t
    ensures table.Ranked? ==> DistinctTickers(table.rows)
  {
    var variations := CollectVariations(order, period, today, market);
    if variations == [] {
      table := NothingToShow;
    } else {
      var rows := ToRows(variations);
      table := Ranked(SortByAbsVariation(rows));
      ReorderedRowsSound(order, period, today, market, table.rows);
      ReorderedRowsComplete(order, period, today, market, table.rows);
      ReorderedRowsDistinct(order, period, today, market, table.rows);
    }
  }

  /** Of three tickers where one lacks a share count and one has no
      snapshot, only the first is kept, and the run completes. */
  lemma SkipExample(today: Date)
    ensures
      var noShares := Info(None, None, None, None, None, Some(5.0));
      var full := Info(None, None, None, None, Some(10), Some(12.0));
      var market := Market(map["A" := full, "B" := noShares],
                           map[("A", today - 7, today) := 10.0, ("B", today - 7, today) := 4.0,
                               ("C", today - 7, today) := 1.0]);
      Kept(["A", "B", "C"], Week, today, market) == [Record("A", 20.0, Some(0.2))]
  {
    var noShares := Info(None, None, None, None, None, Some(5.0));
    var full := Info(None, None, None, None, Some(10), Some(12.0));
    var market := Market(map["A" := full, "B" := noShares],
                         map[("A", today - 7, today) := 10.0, ("B", today - 7, today) := 4.0,
                             ("C", today - 7, today) := 1.0]);
    var abc: seq<string> := ["A", "B", "C"];
    assert abc[..2] == ["A", "B"] && abc[..2][..1] == ["A"] && abc[..2][..1][..0] == [];
    assert RecordFor("A", Week, today, market) == Some(Record("A", 20.0, Some(0.2)));
    assert !Available("B", Week, today, market);
    assert !Available("C", Week, today, market);
    assert Kept(["A"], Week, today, market) == [Record("A", 20.0, Some(0.2))];
    assert Kept(["A", "B"], Week, today, market) == [Record("A", 20.0, Some(0.2))];
  }

  /** Changes of +100, -500 and +50 are ranked -500, +100, +50, signs
      untouched. */
  lemma SortExample()
    ensures
      var a, b, c := Row("A", 100.0, None, 100.0), Row("B", -500.0, None, 500.0), Row("C", 50.0, None, 50.0);
      SortByAbsVariation([a, b, c]) == [b, a, c]
  {
    var a, b, c := Row("A", 100.0, None, 100.0), Row("B", -500.0, None, 500.0), Row("C", 50.0, None, 50.0);
    assert [a, b, c][1..] == [b, c];
    assert [b, c][1..] == [c];
    assert [c][1..] == [];
    assert SortByAbsVariation([b, c]) == [b, c];
    assert Insert(a, [b, c]) == [b, a, c];
  }
}
