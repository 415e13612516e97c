/** Loading the chart's price history, with the one fallback the script has
    for an empty result. */
module ChartLoader {

  import opened RangeResolver

  /** The Close column of a downloaded price history, oldest first. */
  type Series = seq<real>

  /** The request the day range falls back to: one more day back, same end
      and interval. */
  function DayBefore(q: Query): (r: Query)
    ensures r.start == q.start - 1 && r.end == q.end && r.interval == q.interval
  {
    q.(start := q.start - 1)
  }

  /** Downloads the series for `q` and, for the day range only, retries once
      from the day before when the first result is empty. `download` stands
      for the remote history call; `fetches` lists every request made, in
      order, so `|fetches|` counts the calls. */
  method LoadWithRetry(t: Tag, q: Query, download: Query -> Series)
    returns (data: Series, error: bool, fetches: seq<Query>)
    ensures download(q) != [] ==> fetches == [q] && !error && data == download(q)
    ensures download(q) == [] && t == Day ==>
      fetches == [q, DayBefore(q)] && data == download(DayBefore(q)) &&
      (error <==> download(DayBefore(q)) == [])
    ensures download(q) == [] && t != Day ==> fetches == [q] && error
    ensures error <==> data == []
    ensures 1 <= |fetches| <= 2 && fetches[0] == q && data == download(fetches[|fetches| - 1])
  {
    var start := q.start;
    data := download(Query(start, q.end, q.interval));
    fetches := [Query(start, q.end, q.interval)];
    error := false;
    if data == [] {
      if t == Day {
        start := start - 1;
        data := download(Query(start, q.end, q.interval));
        fetches := fetches + [Query(start, q.end, q.interval)];
        if data == [] {
          error := true;
        }
      } else {
        error := true;
      }
    }
  }

  /** Against a source that always answers empty, a week range is given up
      after one call and the day range after exactly two. */
  method EmptySourceExample(q: Query) returns (weekCalls: nat, dayCalls: nat)
    ensures weekCalls == 1 && dayCalls == 2
  {
    var empty := (r: Query) => [];
    var data, error, fetches := LoadWithRetry(Week, q, empty);
    assert error;
    weekCalls := |fetches|;
    data, error, fetches := LoadWithRetry(Day, q, empty);
    assert error && fetches[1].start == q.start - 1;
    dayCalls := |fetches|;
  }
}
