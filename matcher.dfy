/** The batch pass that joins lottery draws to weather observations by nearest
    observation time (tab_to_re.py, compare_and_insert_data).

    For every draw, every weather record is scanned; a record is a candidate
    when its distance to the draw time is at most ten minutes, and the first
    candidate with a strictly smaller distance than all before it wins. A
    matched draw yields one row of the result table, carrying the distance in
    whole minutes; an unmatched draw is counted and gets a diagnostic: the
    globally nearest weather record. The result table is truncated and
    refilled inside one transaction: it ends up either wholly replaced or, on
    an error, unchanged. */
module Matcher {
  import opened Common

  /** A weather record is eligible when it is at most ten minutes away. */
  const Tolerance: nat := 600
  /** The starting value of the running minimum: eleven minutes. */
  const InitialMin: nat := 660

  /** One row of the data_weather table. Times are integer seconds; the
      decimal columns are carried as scaled integers. */
  datatype Weather = Weather(time: int, temperature: int, humidity: int, pressure: int,
                             windSpeed: int, windDirection: string, conditions: string)

  /** One element of the in-memory weather list: the row as read, plus the
      minutes entry that the matching loop writes into it. */
  datatype WeatherDict = WeatherDict(rec: Weather, minutes: Option<nat>)

  /** One row of total_results: the draw, the matched weather record and the
      distance in whole minutes. */
  datatype JoinedRow = JoinedRow(draw: Draw, weather: Weather, minutes: nat)

  /** The diagnostic for an unmatched draw: the nearest observation time and
      its distance in whole minutes, or nothing when there is no weather. */
  datatype Nearest = Nearest(time: int, minutes: nat)
  datatype Miss = Miss(draw: Draw, nearest: Option<Nearest>)

  /** A pair (distance, observation time), compared as Python compares tuples. */
  datatype Gap = Gap(diff: nat, time: int)

  /** Where a database statement raises, if anywhere: the connection is
      refused, a statement before the first insert fails (the two selects or
      the truncate), the insert of the k-th matched row (from 0) fails, or the
      commit fails. */
  datatype Fault = NoFault | ConnectFails | ReadFails | InsertFails(k: nat) | CommitFails

  datatype Outcome =
    | NotConnected
    | RolledBack
    | Committed(matched: nat, unmatched: nat, total: nat, misses: seq<Miss>)

  function Abs(x: int): nat {
    if x < 0 then -x else x
  }

  function Diff(d: Draw, w: Weather): nat {
    Abs(d.time - w.time)
  }

  predicate Eligible(d: Draw, w: Weather) {
    Diff(d, w) <= Tolerance
  }

  /** int(delta.total_seconds() / 60) for a non-negative whole-second delta. */
  function WholeMinutes(seconds: nat): nat {
    seconds / 60
  }

  function Records(ws: seq<WeatherDict>): (r: seq<Weather>)
    ensures |r| == |ws| && forall i :: 0 <= i < |ws| ==> r[i] == ws[i].rec
  {
    seq(|ws|, i requires 0 <= i < |ws| => ws[i].rec)
  }

  // ---------------------------------------------------------------------
  // Choosing the weather record for one draw
  // ---------------------------------------------------------------------

  /** The running minimum after `best` is chosen: eleven minutes while
      nothing is chosen. */
  function MinSoFar(d: Draw, ws: seq<Weather>, best: Option<nat>): nat
    requires best.Some? ==> best.value < |ws|
  {
    if best.Some? then Diff(d, ws[best.value]) else InitialMin
  }

  /** The record chosen after the first `n` records have been scanned. */
  function BestOf(d: Draw, ws: seq<Weather>, n: nat): (r: Option<nat>)
    requires n <= |ws|
    ensures r.Some? ==> r.value < n && Eligible(d, ws[r.value])
    decreases n
  {
    if n == 0 then None
    else
      var b := BestOf(d, ws, n - 1);
      if Eligible(d, ws[n - 1]) && Diff(d, ws[n - 1]) < MinSoFar(d, ws, b) then Some(n - 1) else b
  }

  /** The record chosen for draw `d` after the whole scan. */
  function Closest(d: Draw, ws: seq<Weather>): Option<nat> {
    BestOf(d, ws, |ws|)
  }

  /** Independent statement of the choice among the first `n` records: `j` is
      eligible, no eligible record is nearer, and every eligible record before
      `j` is strictly farther. */
  ghost predicate IsClosestIn(d: Draw, ws: seq<Weather>, n: nat, j: nat)
    requires n <= |ws|
  {
    && j < n
    && Eligible(d, ws[j])
    && (forall k :: 0 <= k < n && Eligible(d, ws[k]) ==> Diff(d, ws[j]) <= Diff(d, ws[k]))
    && (forall k :: 0 <= k < j && Eligible(d, ws[k]) ==> Diff(d, ws[j]) < Diff(d, ws[k]))
  }

  lemma {:induction false} BestOfMeetsSpec(d: Draw, ws: seq<Weather>, n: nat)
    requires n <= |ws|
    ensures BestOf(d, ws, n).None? <==> forall k :: 0 <= k < n ==> !Eligible(d, ws[k])
    ensures BestOf(d, ws, n).Some? ==> IsClosestIn(d, ws, n, BestOf(d, ws, n).value)
    decreases n
  {
    if n > 0 {
      BestOfMeetsSpec(d, ws, n - 1);
    }
  }

  lemma ClosestInUnique(d: Draw, ws: seq<Weather>, n: nat, i: nat, j: nat)
    requires n <= |ws| && IsClosestIn(d, ws, n, i) && IsClosestIn(d, ws, n, j)
    ensures i == j
  {
  }

  /** The scan chooses `j` if and only if `j` is the first eligible record at
      minimal distance, and chooses nothing if and only if no record is
      eligible. */
  lemma ClosestIff(d: Draw, ws: seq<Weather>, j: nat)
    ensures Closest(d, ws) == Some(j) <==> IsClosestIn(d, ws, |ws|, j)
    ensures Closest(d, ws).None? <==> forall k :: 0 <= k < |ws| ==> !Eligible(d, ws[k])
  {
    BestOfMeetsSpec(d, ws, |ws|);
    if IsClosestIn(d, ws, |ws|, j) {
      ClosestInUnique(d, ws, |ws|, Closest(d, ws).value, j);
    }
  }

  /** A record exactly ten minutes away is chosen when it is the only one;
      one ten minutes and one second away is not. */
  lemma ToleranceBoundary(d: Draw, w: Weather)
    ensures Diff(d, w) == Tolerance ==> Closest(d, [w]) == Some(0)
    ensures Diff(d, w) == Tolerance + 1 ==> Closest(d, [w]) == None
  {
  }

  predicate SortedByTime(ws: seq<Weather>) {
    forall i, j :: 0 <= i < j < |ws| ==> ws[i].time < ws[j].time
  }

  /** With the weather list in ascending time order, two eligible records at
      the same distance are resolved in favour of the earlier one. */
  lemma TieGoesToEarlier(d: Draw, ws: seq<Weather>, k: nat)
    requires SortedByTime(ws)
    requires k < |ws| && Eligible(d, ws[k]) && Closest(d, ws).Some?
    requires Diff(d, ws[k]) == Diff(d, ws[Closest(d, ws).value])
    ensures ws[Closest(d, ws).value].time <= ws[k].time
  {
    BestOfMeetsSpec(d, ws, |ws|);
  }

  // ---------------------------------------------------------------------
  // The joined table and the diagnostics, as functions of the inputs
  // ---------------------------------------------------------------------

  /** The result row for one draw, if it is matched. */
  function RowFor(d: Draw, ws: seq<Weather>): Option<JoinedRow> {
    match Closest(d, ws)
    case None => None
    case Some(j) => Some(JoinedRow(d, ws[j], WholeMinutes(Diff(d, ws[j]))))
  }

  /** The rows of total_results after a successful run, in draw order. */
  function Join(ds: seq<Draw>, ws: seq<Weather>): seq<JoinedRow>
    decreases |ds|
  {
    if ds == [] then []
    else
      var prev := Join(ds[..|ds| - 1], ws);
      match RowFor(ds[|ds| - 1], ws)
      case None => prev
      case Some(r) => prev + [r]
  }

  function Gaps(d: Draw, ws: seq<Weather>): (gs: seq<Gap>)
    ensures |gs| == |ws| && forall i :: 0 <= i < |ws| ==> gs[i] == Gap(Diff(d, ws[i]), ws[i].time)
  {
    seq(|ws|, i requires 0 <= i < |ws| => Gap(Diff(d, ws[i]), ws[i].time))
  }

  predicate GapLe(a: Gap, b: Gap) {
    a.diff < b.diff || (a.diff == b.diff && a.time <= b.time)
  }

  /** The first element of the sorted list of gaps: the least one in tuple order. */
  function LeastGap(gs: seq<Gap>): (g: Gap)
    requires |gs| > 0
    ensures g in gs
    ensures forall x :: x in gs ==> GapLe(g, x)
    decreases |gs|
  {
    if |gs| == 1 then gs[0]
    else
      var m := LeastGap(gs[1..]);
      assert forall x :: x in gs ==> x == gs[0] || x in gs[1..];
      if GapLe(gs[0], m) then gs[0] else m
  }

  /** The diagnostic for an unmatched draw. */
  function NearestOf(d: Draw, ws: seq<Weather>): Option<Nearest> {
    if ws == [] then None
    else
      var g := LeastGap(Gaps(d, ws));
      Some(Nearest(g.time, WholeMinutes(g.diff)))
  }

  /** The unmatched draws with their diagnostics, in draw order. */
  function Misses(ds: seq<Draw>, ws: seq<Weather>): seq<Miss>
    decreases |ds|
  {
    if ds == [] then []
    else
      var prev := Misses(ds[..|ds| - 1], ws);
      var d := ds[|ds| - 1];
      if RowFor(d, ws).Some? then prev else prev + [Miss(d, NearestOf(d, ws))]
  }

  // ---------------------------------------------------------------------
  // What the joined table promises
  // ---------------------------------------------------------------------

  /** Every draw is either matched or unmatched, never both. */
  lemma {:induction false} CountsAddUp(ds: seq<Draw>, ws: seq<Weather>)
    ensures |Join(ds, ws)| + |Misses(ds, ws)| == |ds|
    decreases |ds|
  {
    if ds != [] {
      CountsAddUp(ds[..|ds| - 1], ws);
    }
  }

  /** Adding one more draw adds at most one row and keeps the earlier rows. */
  lemma OneMoreDraw(ds: seq<Draw>, d: Draw, ws: seq<Weather>)
    ensures Join(ds + [d], ws) == Join(ds, ws) || Join(ds + [d], ws) == Join(ds, ws) + [RowFor(d, ws).value]
    ensures |Join(ds + [d], ws)| == |Join(ds, ws)| + (if RowFor(d, ws).Some? then 1 else 0)
  {
    assert (ds + [d])[..|ds + [d]| - 1] == ds;
  }

  /** The rows of two runs of draws, one after the other, are the rows of
      each run, one after the other. */
  lemma {:induction false} JoinAppend(a: seq<Draw>, b: seq<Draw>, ws: seq<Weather>)
    ensures Join(a + b, ws) == Join(a, ws) + Join(b, ws)
    decreases |b|
  {
    if b == [] {
      assert a + b == a;
    } else {
      var b' := b[..|b| - 1];
      JoinAppend(a, b', ws);
      assert (a + b)[..|a + b| - 1] == a + b';
    }
  }

  /** A new draw may land anywhere in the time-ordered list, since draws
      older than the newest are inserted too. Wherever it lands, the rows
      of the other draws stay as they were, in order, and the draw's own
      row, if it has one, appears at its place: one row more or none. */
  lemma InsertOneDraw(ds: seq<Draw>, i: nat, d: Draw, ws: seq<Weather>)
    requires i <= |ds|
    ensures Join(ds[..i] + [d] + ds[i..], ws) ==
      Join(ds[..i], ws) + (if RowFor(d, ws).Some? then [RowFor(d, ws).value] else []) + Join(ds[i..], ws)
    ensures Join(ds[..i], ws) + Join(ds[i..], ws) == Join(ds, ws)
    ensures |Join(ds[..i] + [d] + ds[i..], ws)| == |Join(ds, ws)| + (if RowFor(d, ws).Some? then 1 else 0)
  {
    var pre, post := ds[..i], ds[i..];
    var own := if RowFor(d, ws).Some? then [RowFor(d, ws).value] else [];
    assert [d][..0] == [];
    assert Join([d], ws) == own;
    JoinAppend(pre, [d], ws);
    JoinAppend(pre + [d], post, ws);
    assert Join(pre + [d] + post, ws) == Join(pre, ws) + own + Join(post, ws);
    JoinAppend(pre, post, ws);
    assert pre + post == ds;
  }

  /** A longer prefix of the draws never has fewer rows. */
  lemma {:induction false} JoinPrefixMonotone(ds: seq<Draw>, ws: seq<Weather>, i: nat, j: nat)
    requires i <= j <= |ds|
    ensures |Join(ds[..i], ws)| <= |Join(ds[..j], ws)|
    decreases j - i
  {
    if i < j {
      JoinPrefixMonotone(ds, ws, i, j - 1);
      assert ds[..j][..j - 1] == ds[..j - 1];
    }
  }

  /** Every row comes from a draw of the input, is that draw's choice, and
      carries the chosen distance in whole minutes, so 0 to 10. */
  lemma {:induction false} JoinRowsAreMatches(ds: seq<Draw>, ws: seq<Weather>)
    ensures forall r :: r in Join(ds, ws) ==>
      && r.draw in ds
      && Closest(r.draw, ws).Some?
      && r.weather == ws[Closest(r.draw, ws).value]
      && r.minutes == WholeMinutes(Diff(r.draw, r.weather))
      && r.minutes <= 10
    decreases |ds|
  {
    if ds != [] {
      var init := ds[..|ds| - 1];
      JoinRowsAreMatches(init, ws);
      assert forall x :: x in init ==> x in ds;
    }
  }

  /** A draw has a row exactly when some weather record is within the tolerance. */
  lemma {:induction false} MatchedIffEligible(ds: seq<Draw>, ws: seq<Weather>, i: nat)
    requires i < |ds|
    ensures RowFor(ds[i], ws).Some? <==> exists k :: 0 <= k < |ws| && Eligible(ds[i], ws[k])
  {
    BestOfMeetsSpec(ds[i], ws, |ws|);
  }

  predicate DistinctNumbers(ds: seq<Draw>) {
    forall i, j :: 0 <= i < j < |ds| ==> ds[i].number != ds[j].number
  }

  predicate DrawsSorted(ds: seq<Draw>) {
    forall i, j :: 0 <= i < j < |ds| ==> ds[i].time <= ds[j].time
  }

  /** With distinct draw numbers, no draw has two rows. */
  lemma {:induction false} AtMostOneRowPerDraw(ds: seq<Draw>, ws: seq<Weather>)
    requires DistinctNumbers(ds)
    ensures forall i, j :: 0 <= i < j < |Join(ds, ws)| ==>
      Join(ds, ws)[i].draw.number != Join(ds, ws)[j].draw.number
    decreases |ds|
  {
    if ds != [] {
      var init := ds[..|ds| - 1];
      AtMostOneRowPerDraw(init, ws);
      JoinRowsAreMatches(init, ws);
      assert forall x :: x in init ==> x.number != ds[|ds| - 1].number;
    }
  }

  /** With the draws in ascending time order, so are the rows. */
  lemma {:induction false} JoinInDrawOrder(ds: seq<Draw>, ws: seq<Weather>)
    requires DrawsSorted(ds)
    ensures forall i, j :: 0 <= i < j < |Join(ds, ws)| ==>
      Join(ds, ws)[i].draw.time <= Join(ds, ws)[j].draw.time
    decreases |ds|
  {
    if ds != [] {
      var init := ds[..|ds| - 1];
      JoinInDrawOrder(init, ws);
      JoinRowsAreMatches(init, ws);
      assert forall x :: x in init ==> x.time <= ds[|ds| - 1].time;
    }
  }

  /** Nothing marks a weather record as used: two draws may share one. */
  lemma SharedWeather()
    ensures
      var w := Weather(300, 0, 0, 0, 0, "", "");
      var ds := [Draw(1, 0, []), Draw(2, 600, [])];
      Join(ds, [w]) == [JoinedRow(ds[0], w, 5), JoinedRow(ds[1], w, 5)]
  {
    var w := Weather(300, 0, 0, 0, 0, "", "");
    var ds := [Draw(1, 0, []), Draw(2, 600, [])];
    assert ds[..1] == [ds[0]];
    assert ds[..1][..0] == [];
  }

  /** The diagnostic of an unmatched draw is the nearest record in tuple order,
      and it lies outside the tolerance (ten minutes or more, in whole minutes). */
  lemma MissIsNearestAndFar(d: Draw, ws: seq<Weather>)
    requires RowFor(d, ws).None? && ws != []
    ensures NearestOf(d, ws).Some?
    ensures exists k :: 0 <= k < |ws| && NearestOf(d, ws).value.time == ws[k].time
                        && NearestOf(d, ws).value.minutes == WholeMinutes(Diff(d, ws[k]))
    ensures forall k :: 0 <= k < |ws| ==> GapLe(LeastGap(Gaps(d, ws)), Gap(Diff(d, ws[k]), ws[k].time))
    ensures NearestOf(d, ws).value.minutes >= 10
  {
    BestOfMeetsSpec(d, ws, |ws|);
    var gs := Gaps(d, ws);
    var g := LeastGap(gs);
    var k :| 0 <= k < |gs| && gs[k] == g;
    assert !Eligible(d, ws[k]);
    assert forall i :: 0 <= i < |ws| ==> gs[i] in gs;
  }

  /** The worked example: a draw at 10:00, weather at 10:07 and 10:30; the
      10:07 record is chosen with a distance of 7 minutes. */
  lemma WorkedExample()
    ensures
      var d := Draw(1001, 36000, [1, 2, 3, 4, 5, 6, 7, 8]);
      var w1 := Weather(36420, 0, 0, 0, 0, "", "");
      var w2 := Weather(37800, 0, 0, 0, 0, "", "");
      Join([d], [w1, w2]) == [JoinedRow(d, w1, 7)]
  {
    var d := Draw(1001, 36000, [1, 2, 3, 4, 5, 6, 7, 8]);
    assert [d][..0] == [];
  }

  // ---------------------------------------------------------------------
  // The imperative pass
  // ---------------------------------------------------------------------

  /** The result table. */
  class ResultTable {
    var rows: seq<JoinedRow>

    constructor (initial: seq<JoinedRow>)
      ensures rows == initial
    {
      rows := initial;
    }
  }

  /** What the scan for draw `d` leaves in dict `j`: a dict that became the
      best so far holds its own distance in whole minutes. */
  function Stamp(d: Draw, ws: seq<Weather>, w: WeatherDict, j: nat): WeatherDict
    requires j < |ws|
  {
    if BestOf(d, ws, j + 1) == Some(j) then w.(minutes := Some(WholeMinutes(Diff(d, ws[j])))) else w
  }

  /** The scan over all weather dicts for one draw. Each dict that becomes the
      best so far has its minutes entry overwritten with its own distance;
      on return the chosen dict holds the final minimum. */
  method ScanWeather(d: Draw, weather: array<WeatherDict>) returns (best: Option<nat>)
    modifies weather
    ensures best == Closest(d, Records(old(weather[..])))
    ensures best.Some? ==> best.value < weather.Length
    ensures best.Some? ==> weather[best.value].minutes == Some(WholeMinutes(Diff(d, weather[best.value].rec)))
    ensures forall j :: 0 <= j < weather.Length ==> weather[j] == Stamp(d, Records(old(weather[..])), old(weather[j]), j)
    ensures forall j :: 0 <= j < weather.Length ==> weather[j].rec == old(weather[j].rec)
  {
    ghost var olds := weather[..];
    ghost var ws := Records(olds);
    var minTimeDiff: nat := InitialMin;
    best := None;
    var i := 0;
    while i < weather.Length
      invariant 0 <= i <= weather.Length
      invariant best == BestOf(d, ws, i)
      invariant minTimeDiff == MinSoFar(d, ws, best)
      invariant best.Some? ==> weather[best.value].minutes == Some(WholeMinutes(Diff(d, ws[best.value])))
      invariant forall j :: 0 <= j < i ==> weather[j] == Stamp(d, ws, olds[j], j)
      invariant forall j :: i <= j < weather.Length ==> weather[j] == olds[j]
    {
      var timeDiff := Abs(d.time - weather[i].rec.time);
      assert timeDiff == Diff(d, ws[i]);
      if timeDiff <= Tolerance && timeDiff < minTimeDiff {
        assert BestOf(d, ws, i + 1) == Some(i);
        minTimeDiff := timeDiff;
        best := Some(i);
        weather[i] := weather[i].(minutes := Some(WholeMinutes(timeDiff)));
        assert weather[i] == Stamp(d, ws, olds[i], i);
      } else {
        assert BestOf(d, ws, i + 1) == best;
        assert weather[i] == Stamp(d, ws, olds[i], i);
      }
      i := i + 1;
    }
  }

  /** The matching step for one draw: the scan, then the result row built
      from the chosen dict, whose minutes entry the scan wrote last. */
  method MatchDraw(lottery: Draw, weatherData: array<WeatherDict>, ghost ws: seq<Weather>)
    returns (row: Option<JoinedRow>)
    requires Records(weatherData[..]) == ws
    modifies weatherData
    ensures Records(weatherData[..]) == ws
    ensures row == RowFor(lottery, ws)
  {
    var closestWeather := ScanWeather(lottery, weatherData);
    assert Records(weatherData[..]) == ws;
    if closestWeather.Some? {
      var chosen := weatherData[closestWeather.value];
      row := Some(JoinedRow(lottery, chosen.rec, chosen.minutes.value));
    } else {
      row := None;
    }
  }

  /** The diagnostic for an unmatched draw: the list of (distance, time) pairs
      is built, and the first element of its sorted order is reported. */
  method NearestWeather(d: Draw, weather: array<WeatherDict>) returns (nearest: Option<Nearest>)
    ensures nearest == NearestOf(d, Records(weather[..]))
  {
    var closestTimes: seq<Gap> := [];
    var i := 0;
    while i < weather.Length
      invariant 0 <= i <= weather.Length
      invariant closestTimes == Gaps(d, Records(weather[..i]))
    {
      closestTimes := closestTimes + [Gap(Abs(d.time - weather[i].rec.time), weather[i].rec.time)];
      i := i + 1;
    }
    assert weather[..i] == weather[..];
    if |closestTimes| > 0 {
      var g := LeastGap(closestTimes);
      nearest := Some(Nearest(g.time, WholeMinutes(g.diff)));
    } else {
      nearest := None;
    }
  }

  /** The weather list as read from the table: one dict per row, in the
      order of the query, with no minutes entry yet. */
  method LoadWeather(weatherRows: seq<Weather>) returns (weatherData: array<WeatherDict>)
    ensures fresh(weatherData)
    ensures weatherData[..] == seq(|weatherRows|, i requires 0 <= i < |weatherRows| => WeatherDict(weatherRows[i], None))
  {
    weatherData := new WeatherDict[|weatherRows|];
    var w := 0;
    while w < |weatherRows|
      invariant 0 <= w <= |weatherRows|
      invariant forall j :: 0 <= j < w ==> weatherData[j] == WeatherDict(weatherRows[j], None)
    {
      weatherData[w] := WeatherDict(weatherRows[w], None);
      w := w + 1;
    }
  }

  /** compare_and_insert_data: on success the table holds exactly the joined
      rows and the outcome reports the counts and the diagnostics; on any
      error the table is left as it was. */
  method CompareAndInsert(table: ResultTable, drawRows: seq<Draw>, weatherRows: seq<Weather>, fault: Fault)
    returns (outcome: Outcome)
    modifies table
    ensures fault == ConnectFails ==> outcome == NotConnected
    ensures outcome.Committed? <==>
      (fault == NoFault || (fault.InsertFails? && fault.k >= |Join(drawRows, weatherRows)|))
    ensures outcome.Committed? ==>
      && table.rows == Join(drawRows, weatherRows)
      && outcome.matched == |Join(drawRows, weatherRows)|
      && outcome.unmatched == |drawRows| - |Join(drawRows, weatherRows)|
      && outcome.total == |drawRows|
      && outcome.misses == Misses(drawRows, weatherRows)
    ensures !outcome.Committed? ==> table.rows == old(table.rows)
  {
    if fault == ConnectFails {
      return NotConnected;
    }
    var lotteryData := drawRows;
    var weatherData := LoadWeather(weatherRows);
    assert Records(weatherData[..]) == weatherRows;
    if fault == ReadFails {
      return RolledBack;
    }
    var pending, matchedCount, unmatchedCount, misses, failed := JoinDraws(drawRows, weatherData, weatherRows, fault);
    if failed {
      return RolledBack;
    }
    CountsAddUp(drawRows, weatherRows);
    if fault == CommitFails {
      return RolledBack;
    }
    table.rows := pending;
    outcome := Committed(matchedCount, unmatchedCount, |lotteryData|, misses);
  }

  /** The loop over the draws inside the transaction: the rows written so
      far, the two counters and the diagnostics. `failed` says that the
      insert numbered `fault.k` raised, which happens exactly when the join
      has more than k rows. */
  method JoinDraws(lotteryData: seq<Draw>, weatherData: array<WeatherDict>, ghost weatherRows: seq<Weather>,
                   fault: Fault)
    returns (pending: seq<JoinedRow>, matchedCount: nat, unmatchedCount: nat, misses: seq<Miss>, failed: bool)
    requires Records(weatherData[..]) == weatherRows
    modifies weatherData
    ensures Records(weatherData[..]) == weatherRows
    ensures failed <==> fault.InsertFails? && fault.k < |Join(lotteryData, weatherRows)|
    ensures !failed ==>
      && pending == Join(lotteryData, weatherRows) && misses == Misses(lotteryData, weatherRows)
      && matchedCount == |pending| && unmatchedCount == |misses|
  {
    pending, matchedCount, unmatchedCount, misses, failed := [], 0, 0, [], false;
    var i := 0;
    while i < |lotteryData|
      invariant 0 <= i <= |lotteryData|
      invariant Records(weatherData[..]) == weatherRows
      invariant pending == Join(lotteryData[..i], weatherRows)
      invariant misses == Misses(lotteryData[..i], weatherRows)
      invariant matchedCount == |pending| && unmatchedCount == |misses|
      invariant fault.InsertFails? ==> fault.k >= matchedCount
    {
      var lottery := lotteryData[i];
      var closest := MatchDraw(lottery, weatherData, weatherRows);
      assert lotteryData[..i + 1][..i] == lotteryData[..i];
      if closest.Some? {
        assert Join(lotteryData[..i + 1], weatherRows) == pending + [closest.value];
        if fault == InsertFails(matchedCount) {
          JoinPrefixMonotone(lotteryData, weatherRows, i + 1, |lotteryData|);
          assert lotteryData[..|lotteryData|] == lotteryData;
          return pending, matchedCount, unmatchedCount, misses, true;
        }
        pending := pending + [closest.value];
        matchedCount := matchedCount + 1;
      } else {
        unmatchedCount := unmatchedCount + 1;
        var nearest := NearestWeather(lottery, weatherData);
        misses := misses + [Miss(lottery, nearest)];
      }
      i := i + 1;
    }
    assert lotteryData[..i] == lotteryData;
  }
}
