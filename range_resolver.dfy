/** The chart's range selector: a symbolic range tag and today's date become
    the `(start, end, interval)` triple of the price-history download. */
module RangeResolver {

  import opened Wrappers

  /** A calendar date, counted in days. */
  type Date = int

  /** The range tags of the chart's selectbox, in the order it lists them. */
  datatype Tag = Day | Week | Month | SixMonths | Year | FiveYears | TwentyFiveYears | Custom

  /** One download request: from `start` (inclusive) to `end` (exclusive),
      sampled every `interval`. */
  datatype Query = Query(start: Date, end: Date, interval: string)

  /** The labels the selectbox offers, in its order. */
  const TIME_RANGE_OPTIONS: seq<string> := ["1j", "1s", "1m", "6m", "1y", "5y", "25y", "Custom"]

  /** The label of a tag, as shown to the user and compared by the script. */
  function Name(t: Tag): (s: string)
    ensures s in TIME_RANGE_OPTIONS
  {
    match t
    case Day => "1j"
    case Week => "1s"
    case Month => "1m"
    case SixMonths => "6m"
    case Year => "1y"
    case FiveYears => "5y"
    case TwentyFiveYears => "25y"
    case Custom => "Custom"
  }

  /** The tag a label stands for; labels outside the selectbox stand for none. */
  function Parse(s: string): (r: Option<Tag>)
    ensures r.Some? <==> s in TIME_RANGE_OPTIONS
    ensures r.Some? ==> Name(r.value) == s
  {
    if s == "1j" then Some(Day)
    else if s == "1s" then Some(Week)
    else if s == "1m" then Some(Month)
    else if s == "6m" then Some(SixMonths)
    else if s == "1y" then Some(Year)
    else if s == "5y" then Some(FiveYears)
    else if s == "25y" then Some(TwentyFiveYears)
    else if s == "Custom" then Some(Custom)
    else None
  }

  /** Labels and tags are in one-to-one correspondence. */
  lemma ParseName(t: Tag)
    ensures Parse(Name(t)) == Some(t)
  {
  }

  /** How many days before today a non-custom range starts. */
  function LookbackDays(t: Tag): nat
    requires t != Custom
  {
    match t
    case Day => 0
    case Week => 7
    case Month => 30
    case SixMonths => 182
    case Year => 365
    case FiveYears => 5 * 365
    case TwentyFiveYears => 25 * 365
  }

  /** The sampling interval: one minute for a day, thirty minutes for a week,
      one day otherwise (the script's initial `interval = "1d"`). */
  function Interval(t: Tag): string
  {
    match t
    case Day => "1m"
    case Week => "30m"
    case _ => "1d"
  }

  /** Whether an interval is finer than a day. */
  predicate Intraday(interval: string)
  {
    interval == "1m" || interval == "30m"
  }

  /** The pair the custom date picker starts from: one year back up to today. */
  function DefaultPick(today: Date): (pick: (Date, Date))
    ensures pick.1 - pick.0 == 365 && pick.1 == today
  {
    (today - 365, today)
  }

  /** The download request for a tag. `pick` is what the custom date picker
      returned; it is used, unchecked, only for `Custom`. A non-custom range
      ends tomorrow (exclusive end), so today is always inside it. */
  function Resolve(t: Tag, today: Date, pick: (Date, Date)): (q: Query)
    ensures t != Custom ==> q.end == today + 1 && q.start == today - LookbackDays(t)
    ensures t != Custom ==> q.start <= today < q.end
    ensures t == Custom ==> q.start == pick.0 && q.end == pick.1
    ensures Intraday(q.interval) <==> t == Day || t == Week
    ensures q.interval == "1m" <==> t == Day
    ensures q.interval == "30m" <==> t == Week
    ensures !Intraday(q.interval) ==> q.interval == "1d"
  {
    if t == Custom then Query(pick.0, pick.1, Interval(t))
    else Query(today - LookbackDays(t), today + 1, Interval(t))
  }

  /** Left as it opens, the custom picker asks for the "1y" range's start,
      one day less than its end, at the daily interval. */
  lemma DefaultPickIsYearBack(today: Date, pick: (Date, Date))
    ensures Resolve(Custom, today, DefaultPick(today)).start == Resolve(Year, today, pick).start
    ensures Resolve(Custom, today, DefaultPick(today)).end == Resolve(Year, today, pick).end - 1
    ensures Resolve(Custom, today, DefaultPick(today)).interval == Resolve(Year, today, pick).interval == "1d"
  {
  }

  /** The chart ranges written out as a table: label, days looked back, interval. */
  const CHART_TABLE: seq<(string, int, string)> :=
    [("1j", 0, "1m"), ("1s", 7, "30m"), ("1m", 30, "1d"), ("6m", 182, "1d"),
     ("1y", 365, "1d"), ("5y", 1825, "1d"), ("25y", 9125, "1d")]

  /** Every row of the table is what the resolver produces for that label, and
      the table covers every label but "Custom". */
  lemma ResolveMatchesTable(today: Date, pick: (Date, Date))
    ensures forall i :: 0 <= i < |CHART_TABLE| ==>
      Parse(CHART_TABLE[i].0).Some? && Parse(CHART_TABLE[i].0).value != Custom &&
      Resolve(Parse(CHART_TABLE[i].0).value, today, pick) ==
        Query(today - CHART_TABLE[i].1, today + 1, CHART_TABLE[i].2)
    ensures forall t :: t != Custom ==>
      Position(t) < |CHART_TABLE| && CHART_TABLE[Position(t)].0 == Name(t)
  {
  }

  /** A tag's position in the selectbox. */
  function Position(t: Tag): (i: nat)
    ensures i < |TIME_RANGE_OPTIONS| && TIME_RANGE_OPTIONS[i] == Name(t)
  {
    match t
    case Day => 0
    case Week => 1
    case Month => 2
    case SixMonths => 3
    case Year => 4
    case FiveYears => 5
    case TwentyFiveYears => 6
    case Custom => 7
  }

  /** A range listed later in the selectbox starts strictly earlier and ends
      on the same day. */
  lemma LaterRangeStartsEarlier(a: Tag, b: Tag, today: Date, pick: (Date, Date))
    requires a != Custom && b != Custom && Position(a) < Position(b)
    ensures Resolve(b, today, pick).start < Resolve(a, today, pick).start
    ensures Resolve(b, today, pick).end == Resolve(a, today, pick).end
  {
  }
}
