/** The chart section of the dashboard, end to end: resolve the range, load
    the history with its fallback, and derive the panel only when data came
    back. */
module Dashboard {

  import opened Wrappers
  import opened RangeResolver
  import opened ChartLoader
  import opened Fundamentals

  method ShowTicker(t: Tag, today: Date, pick: (Date, Date), download: Query -> Series, info: Info)
    returns (data: Series, fetches: seq<Query>, panel: Option<Panel>)
    ensures 1 <= |fetches| <= 2 && fetches[0] == Resolve(t, today, pick)
    ensures |fetches| == 2 <==> t == Day && download(Resolve(t, today, pick)) == []
    ensures data == download(fetches[|fetches| - 1])
    ensures panel.Some? <==> data != []
    ensures panel.Some? ==> panel.value == Derive(info, data)
    ensures t != Custom && panel.Some? ==> fetches[|fetches| - 1].end == today + 1
  {
    var q := Resolve(t, today, pick);
    var error;
    data, error, fetches := LoadWithRetry(t, q, download);
    if error {
      panel := None;
    } else {
      panel := Some(Derive(info, data));
    }
  }
}
